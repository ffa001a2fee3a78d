/** The channel index over whole runs: invariant, and the order in which owners fail over. */
module IndexHistory {
  import opened Wrappers
  import opened Lists
  import opened ChannelIndex

  /** The index after a run that started empty. */
  function After(acts: seq<Action>): Index {
    if acts == [] then EMPTY else
    var ix := After(acts[..|acts| - 1]);
    var a := acts[|acts| - 1];
    if Callable(ix, a) then Step(ix, a) else ix
  }

  /** Initial commits use an IOC id without channels; follow-up commits come from a known IOC or register nothing. */
  ghost predicate Legal(acts: seq<Action>) {
    forall k | 0 <= k < |acts| :: Callable(After(acts[..k]), acts[k]) && Safe(After(acts[..k]), acts[k])
  }

  lemma LegalPrefix(acts: seq<Action>)
    requires Legal(acts) && acts != []
    ensures var n := |acts| - 1;
            && Legal(acts[..n])
            && Callable(After(acts[..n]), acts[n]) && Safe(After(acts[..n]), acts[n])
            && After(acts) == Step(After(acts[..n]), acts[n])
  {
    var n := |acts| - 1;
    forall k | 0 <= k < n
      ensures Callable(After(acts[..n][..k]), acts[..n][k]) && Safe(After(acts[..n][..k]), acts[..n][k])
    {
      assert acts[..n][..k] == acts[..k];
    }
  }

  lemma {:induction false} RunKeepsInv(acts: seq<Action>)
    requires Legal(acts)
    ensures Inv(After(acts))
  {
    if acts == [] {
    } else {
      var n := |acts| - 1;
      LegalPrefix(acts);
      RunKeepsInv(acts[..n]);
      StepKeepsInv(After(acts[..n]), acts[n]);
    }
  }

  /** Registration p of `c` by `i` is the one that still counts: nothing ended it and it renewed nothing. */
  ghost predicate Since(acts: seq<Action>, i: string, c: string, p: nat) {
    && p < |acts| && acts[p].Registers(i, c)
    && (forall q | p < q < |acts| :: !acts[q].Departs(i))
    && (forall q | 0 <= q < p && acts[q].Registers(i, c) :: exists r | q < r < p :: acts[r].Departs(i))
  }

  /** The same as a computation over the run. */
  function Tenure(acts: seq<Action>, i: string, c: string): Option<nat> {
    if acts == [] then None else
    var a := acts[|acts| - 1];
    var before := Tenure(acts[..|acts| - 1], i, c);
    if a.Departs(i) then None
    else if before.None? && a.Registers(i, c) then Some(|acts| - 1)
    else before
  }

  lemma {:induction false} TenureBound(acts: seq<Action>, i: string, c: string)
    ensures Tenure(acts, i, c).Some? ==> Tenure(acts, i, c).value < |acts|
    ensures Tenure(acts, i, c).None? ==>
            forall q | 0 <= q < |acts| && acts[q].Registers(i, c) :: exists r | q < r < |acts| :: acts[r].Departs(i)
  {
    if acts != [] {
      var n := |acts| - 1;
      TenureBound(acts[..n], i, c);
      if Tenure(acts, i, c).None? {
        forall q | 0 <= q < |acts| && acts[q].Registers(i, c)
          ensures exists r | q < r < |acts| :: acts[r].Departs(i)
        {
          if acts[n].Departs(i) {
            assert q < n;
          } else {
            assert acts[..n][q].Registers(i, c);
            var r :| q < r < n && acts[..n][r].Departs(i);
            assert acts[r].Departs(i);
          }
        }
      }
    }
  }

  lemma {:induction false} TenureIsSince(acts: seq<Action>, i: string, c: string)
    ensures Tenure(acts, i, c).Some? ==> Since(acts, i, c, Tenure(acts, i, c).value)
    ensures forall p: nat | Since(acts, i, c, p) :: Tenure(acts, i, c) == Some(p)
  {
    if acts == [] { return; }
    var n := |acts| - 1;
    var before, a := acts[..n], acts[n];
    TenureIsSince(before, i, c);
    TenureBound(before, i, c);
    if Tenure(acts, i, c).Some? {
      var p := Tenure(acts, i, c).value;
      forall q | 0 <= q < p && acts[q].Registers(i, c) ensures exists r | q < r < p :: acts[r].Departs(i) {
        assert before[q].Registers(i, c);
        if p == n {
          var r :| q < r < n && before[r].Departs(i);
          assert acts[r].Departs(i);
        } else {
          var r :| q < r < p && before[r].Departs(i);
          assert acts[r].Departs(i);
        }
      }
    }
    forall p: nat | Since(acts, i, c, p) ensures Tenure(acts, i, c) == Some(p) {
      if p < n {
        SincePrefix(acts, i, c, p);
      } else if Tenure(before, i, c).Some? {
        SinceNotRenewed(acts, i, c, Tenure(before, i, c).value);
      }
    }
  }

  lemma SincePrefix(acts: seq<Action>, i: string, c: string, p: nat)
    requires p + 1 < |acts| && Since(acts, i, c, p)
    ensures Since(acts[..|acts| - 1], i, c, p)
  {
    var before := acts[..|acts| - 1];
    forall q | 0 <= q < p && before[q].Registers(i, c) ensures exists r | q < r < p :: before[r].Departs(i) {
      assert acts[q].Registers(i, c);
      var r :| q < r < p && acts[r].Departs(i);
      assert before[r].Departs(i);
    }
  }

  /** A running tenure is not renewed by registering again. */
  lemma SinceNotRenewed(acts: seq<Action>, i: string, c: string, p: nat)
    requires acts != [] && Since(acts[..|acts| - 1], i, c, p)
    ensures !Since(acts, i, c, |acts| - 1)
  {
    var n := |acts| - 1;
    assert acts[..n][p] == acts[p];
    forall q | p < q < n ensures !acts[q].Departs(i) {
      assert !acts[..n][q].Departs(i);
    }
  }

  // ---------------------------------------------------------------- owner lists are ordered by tenure

  ghost predicate Earlier(acts: seq<Action>, c: string, i: string, j: string) {
    && Tenure(acts, i, c).Some? && Tenure(acts, j, c).Some?
    && Tenure(acts, i, c).value < Tenure(acts, j, c).value
  }

  ghost predicate OrderedBy(acts: seq<Action>, c: string, owners: seq<string>) {
    && (forall i :: i in owners <==> Tenure(acts, i, c).Some?)
    && (forall x, y | 0 <= x < y < |owners| :: Earlier(acts, c, owners[x], owners[y]))
  }

  /** Dropping one element keeps the order of the others. */
  lemma {:induction false} DropIsSubsequence(s: seq<string>, e: string, x: nat, y: nat) returns (u: nat, v: nat)
    requires x < y < |Drop(s, e)|
    ensures u < v < |s| && s[u] == Drop(s, e)[x] && s[v] == Drop(s, e)[y]
  {
    if s[0] == e {
      u, v := x + 1, y + 1;
    } else if x == 0 {
      u := 0;
      v := DropMember(s[1..], e, y - 1);
      v := v + 1;
    } else {
      u, v := DropIsSubsequence(s[1..], e, x - 1, y - 1);
      u, v := u + 1, v + 1;
    }
  }

  lemma {:induction false} DropMember(s: seq<string>, e: string, y: nat) returns (v: nat)
    requires y < |Drop(s, e)|
    ensures v < |s| && s[v] == Drop(s, e)[y]
  {
    if s[0] == e {
      v := y + 1;
    } else if y == 0 {
      v := 0;
    } else {
      v := DropMember(s[1..], e, y - 1);
      v := v + 1;
    }
  }

  lemma EarlierAfterDeparture(acts: seq<Action>, c: string, i: string, j: string)
    requires acts != [] && !acts[|acts| - 1].Data? && i != acts[|acts| - 1].ioc && j != acts[|acts| - 1].ioc
    requires Earlier(acts[..|acts| - 1], c, i, j)
    ensures Earlier(acts, c, i, j)
  {
  }

  lemma OrderAfterDeparture(acts: seq<Action>, before: seq<Action>, c: string, owners: seq<string>, e: string)
    requires acts != [] && before == acts[..|acts| - 1]
    requires !acts[|acts| - 1].Data? && acts[|acts| - 1].ioc == e && NoDups(owners)
    requires OrderedBy(before, c, owners)
    ensures OrderedBy(acts, c, Drop(owners, e))
  {
    DropProps(owners, e);
    var r := Drop(owners, e);
    forall x, y | 0 <= x < y < |r| ensures Earlier(acts, c, r[x], r[y]) {
      var u, v := DropIsSubsequence(owners, e, x, y);
      assert r[x] in r && r[y] in r;
      assert Earlier(before, c, owners[u], owners[v]);
      EarlierAfterDeparture(acts, c, r[x], r[y]);
    }
    forall i ensures i in r <==> Tenure(acts, i, c).Some? {
      assert i in owners <==> Tenure(before, i, c).Some?;
    }
  }

  lemma OrderAfterData(acts: seq<Action>, c: string, owners: seq<string>)
    requires acts != [] && acts[|acts| - 1].Data?
    requires OrderedBy(acts[..|acts| - 1], c, owners)
    ensures var a := acts[|acts| - 1];
            OrderedBy(acts, c, if c in a.names && a.Ioc() !in owners then owners + [a.Ioc()] else owners)
  {
    TenuresStay(acts, c, owners);
    var a := acts[|acts| - 1];
    if c in a.names && a.Ioc() !in owners {
      NewestIsLast(acts, c, owners);
    }
  }

  /** A data commit leaves the counting registrations as they are. */
  lemma TenuresStay(acts: seq<Action>, c: string, owners: seq<string>)
    requires acts != [] && acts[|acts| - 1].Data?
    requires OrderedBy(acts[..|acts| - 1], c, owners)
    ensures forall i | i in owners :: Tenure(acts, i, c).Some? && Tenure(acts, i, c).value < |acts| - 1
    ensures forall x, y | 0 <= x < y < |owners| :: Earlier(acts, c, owners[x], owners[y])
  {
    var n := |acts| - 1;
    forall i | i in owners
      ensures Tenure(acts, i, c) == Tenure(acts[..n], i, c) && Tenure(acts, i, c).Some?
      ensures Tenure(acts, i, c).value < n
    {
      TenureBound(acts[..n], i, c);
    }
    forall x, y | 0 <= x < y < |owners| ensures Earlier(acts, c, owners[x], owners[y]) {
      assert owners[x] in owners && owners[y] in owners;
      assert Earlier(acts[..n], c, owners[x], owners[y]);
    }
  }

  /** And a new one is the latest. */
  lemma NewestIsLast(acts: seq<Action>, c: string, owners: seq<string>)
    requires acts != [] && acts[|acts| - 1].Data? && c in acts[|acts| - 1].names
    requires OrderedBy(acts[..|acts| - 1], c, owners) && acts[|acts| - 1].Ioc() !in owners
    ensures OrderedBy(acts, c, owners + [acts[|acts| - 1].Ioc()])
  {
    var n := |acts| - 1;
    var i := acts[n].Ioc();
    var r := owners + [i];
    TenuresStay(acts, c, owners);
    assert Tenure(acts[..n], i, c).None? && Tenure(acts, i, c) == Some(n);
    forall x, y | 0 <= x < y < |r| ensures Earlier(acts, c, r[x], r[y]) {
      if y < |owners| {
        assert Earlier(acts, c, owners[x], owners[y]);
      } else {
        assert owners[x] in owners;
      }
    }
    forall j ensures j in r <==> Tenure(acts, j, c).Some? {
      assert j in owners <==> Tenure(acts[..n], j, c).Some?;
    }
  }

  /**
   Over any legal run, the owner list of a channel holds exactly the IOCs whose registration still
   counts, each once, in the order in which those registrations were made.
   */
  lemma {:induction false} OwnersAreInTenureOrder(acts: seq<Action>, c: string)
    requires Legal(acts)
    ensures OrderedBy(acts, c, After(acts).OwnersOf(c))
  {
    if acts == [] {
    } else {
      var n := |acts| - 1;
      LegalPrefix(acts);
      OwnersAreInTenureOrder(acts[..n], c);
      RunKeepsInv(acts[..n]);
      var ix := After(acts[..n]);
      StepOnOneChannel(ix, acts[n], c);
      assert NoDups(ix.OwnersOf(c));
      if acts[n].Data? {
        OrderAfterData(acts, c, ix.OwnersOf(c));
      } else {
        OrderAfterDeparture(acts, acts[..n], c, ix.OwnersOf(c), acts[n].ioc);
      }
    }
  }

  /** An IOC is listed as an owner exactly while one of its registrations counts. */
  lemma OwnedIffRegistered(acts: seq<Action>, c: string, i: string)
    requires Legal(acts)
    ensures i in After(acts).OwnersOf(c) <==> exists p: nat :: Since(acts, i, c, p)
  {
    OwnersAreInTenureOrder(acts, c);
    TenureIsSince(acts, i, c);
  }

  /**
   The IOC a channel fails over to, the last entry of its owner list, is the one whose counting
   registration is the most recent.
   */
  lemma LastOwnerIsTheNewest(acts: seq<Action>, c: string, i: string, p: nat, q: nat)
    requires Legal(acts) && After(acts).OwnersOf(c) != []
    requires var s := After(acts).OwnersOf(c);
             var last := s[|s| - 1];
             i != last && Since(acts, i, c, p) && Since(acts, last, c, q)
    ensures p < q
  {
    hide *;
    OwnersAreInTenureOrder(acts, c);
    NewestInOrder(acts, c, After(acts).OwnersOf(c), i, p, q);
  }

  lemma NewestInOrder(acts: seq<Action>, c: string, s: seq<string>, i: string, p: nat, q: nat)
    requires OrderedBy(acts, c, s) && s != [] && i != s[|s| - 1]
    requires Since(acts, i, c, p) && Since(acts, s[|s| - 1], c, q)
    ensures p < q
  {
    TenureIsSince(acts, i, c);
    TenureIsSince(acts, s[|s| - 1], c);
    assert i in s;
    var x :| 0 <= x < |s| && s[x] == i;
    assert Earlier(acts, c, s[x], s[|s| - 1]);
  }

  // ---------------------------------------------------------------- what the index knows of an IOC

  /** Commit k is the latest to open `i`. */
  ghost predicate OpenedAt(acts: seq<Action>, i: string, k: nat) {
    k < |acts| && acts[k].Opens(i) && forall q | k < q < |acts| :: !acts[q].Opens(i)
  }

  /** Nothing has made the index forget `i` since its opening k. */
  ghost predicate StillKnown(acts: seq<Action>, i: string, k: nat) {
    forall q | k < q < |acts| && acts[q].Departs(i) :: !Forgets(After(acts[..q]), acts[q])
  }

  lemma OpenedPrefix(acts: seq<Action>, i: string, k: nat)
    requires acts != []
    ensures var n := |acts| - 1;
            OpenedAt(acts, i, k) <==> if acts[n].Opens(i) then k == n else OpenedAt(acts[..n], i, k)
  {
    var n := |acts| - 1;
    if k < n && OpenedAt(acts[..n], i, k) && !acts[n].Opens(i) {
      forall q | k < q < |acts| ensures !acts[q].Opens(i) {
        if q < n {
          assert !acts[..n][q].Opens(i);
        }
      }
    }
    if OpenedAt(acts, i, k) && k < n {
      forall q | k < q < n ensures !acts[..n][q].Opens(i) {
        assert !acts[q].Opens(i);
      }
    }
  }

  lemma StillKnownPrefix(acts: seq<Action>, i: string, k: nat)
    requires acts != [] && k < |acts| - 1
    ensures var n := |acts| - 1;
            StillKnown(acts, i, k) <==>
              StillKnown(acts[..n], i, k) && (acts[n].Departs(i) ==> !Forgets(After(acts[..n]), acts[n]))
  {
    var n := |acts| - 1;
    forall q | 0 <= q < n ensures acts[..n][..q] == acts[..q] && acts[..n][q] == acts[q] {
    }
    if StillKnown(acts[..n], i, k) && (acts[n].Departs(i) ==> !Forgets(After(acts[..n]), acts[n])) {
      forall q | k < q < |acts| && acts[q].Departs(i) ensures !Forgets(After(acts[..q]), acts[q]) {
        if q < n {
          assert acts[..n][q].Departs(i);
        }
      }
    }
    if StillKnown(acts, i, k) {
      forall q | k < q < n && acts[..n][q].Departs(i) ensures !Forgets(After(acts[..n][..q]), acts[..n][q]) {
        assert acts[q].Departs(i);
      }
    }
  }

  /** The index knows `i` exactly since its latest opening, if nothing made it forget. */
  ghost predicate KnownSince(acts: seq<Action>, i: string) {
    i in After(acts).iocs <==> exists k: nat :: OpenedAt(acts, i, k) && StillKnown(acts, i, k)
  }

  ghost predicate RecordedAsOpened(acts: seq<Action>, i: string) {
    forall k: nat | i in After(acts).iocs && OpenedAt(acts, i, k) ::
      After(acts).iocs[i] == acts[k].info.(channelcount := |After(acts).ChannelsOf(i)|)
  }

  lemma KnownStep(acts: seq<Action>, i: string)
    requires acts != []
    requires var n := |acts| - 1;
             && Inv(After(acts[..n])) && Callable(After(acts[..n]), acts[n])
             && After(acts) == Step(After(acts[..n]), acts[n])
    requires KnownSince(acts[..|acts| - 1], i)
    ensures KnownSince(acts, i)
  {
    hide Inv, Callable, After, Step, OpenedAt, StillKnown, Forgets;
    var n := |acts| - 1;
    var ix, a := After(acts[..n]), acts[n];
    OwnOrOther(ix, a, i);
    forall k: nat
      ensures OpenedAt(acts, i, k) <==> if a.Opens(i) then k == n else OpenedAt(acts[..n], i, k)
      ensures k < n ==> (StillKnown(acts, i, k) <==> StillKnown(acts[..n], i, k) && (a.Departs(i) ==> !Forgets(ix, a)))
    {
      OpenedPrefix(acts, i, k);
      if k < n {
        StillKnownPrefix(acts, i, k);
      }
    }
    KnownJustNow(acts, i);
    forall k: nat | OpenedAt(acts[..n], i, k) ensures k < n {
      OpenedBefore(acts[..n], i, k);
    }
  }

  lemma OpenedBefore(acts: seq<Action>, i: string, k: nat)
    requires OpenedAt(acts, i, k)
    ensures k < |acts| && acts[k].Opens(i)
  {
  }

  lemma KnownJustNow(acts: seq<Action>, i: string)
    requires acts != []
    ensures StillKnown(acts, i, |acts| - 1)
  {
  }

  /** What a step does to the record of any IOC. */
  lemma OwnOrOther(ix: Index, a: Action, i: string)
    requires Inv(ix) && Callable(ix, a)
    ensures var r := Step(ix, a);
            && (i in r.iocs <==> a.Opens(i) || (i in ix.iocs && !(a.Departs(i) && Forgets(ix, a))))
            && (i in r.iocs ==>
                  var known := if a.Opens(i) then a.info else ix.iocs[i];
                  r.iocs[i] == known.(channelcount := r.iocs[i].channelcount))
  {
    if a.Ioc() == i {
      StepOnOwnRecord(ix, a);
    } else {
      StepIsolatesIocs(ix, a, i);
    }
  }

  lemma RecordStep(acts: seq<Action>, i: string)
    requires acts != []
    requires var n := |acts| - 1;
             && Inv(After(acts[..n])) && Callable(After(acts[..n]), acts[n])
             && After(acts) == Step(After(acts[..n]), acts[n]) && CountsOk(After(acts))
    requires RecordedAsOpened(acts[..|acts| - 1], i)
    ensures RecordedAsOpened(acts, i)
  {
    hide Inv, Callable, After, Step;
    var n := |acts| - 1;
    OwnOrOther(After(acts[..n]), acts[n], i);
    forall k: nat | i in After(acts).iocs && OpenedAt(acts, i, k)
      ensures After(acts).iocs[i] == acts[k].info.(channelcount := |After(acts).ChannelsOf(i)|)
    {
      OpenedPrefix(acts, i, k);
    }
  }

  /**
   Over any legal run the index knows an IOC exactly if nothing has made it forget the IOC since its latest opening,
   and its record is then what that opening said, with the present number of its channels.
   */
  lemma {:induction false} RecordIsFromTheOpening(acts: seq<Action>, i: string)
    requires Legal(acts)
    ensures KnownSince(acts, i) && RecordedAsOpened(acts, i)
  {
    if acts != [] {
      var n := |acts| - 1;
      LegalPrefix(acts);
      RunKeepsInv(acts);
      RunKeepsInv(acts[..n]);
      RecordIsFromTheOpening(acts[..n], i);
      KnownStep(acts, i);
      RecordStep(acts, i);
    }
  }

  /** The index has an empty list for exactly the record ids that any commit asked to delete, and never drops one. */
  lemma {:induction false} ProbedForEver(acts: seq<Action>, rid: nat)
    requires Legal(acts)
    ensures rid in After(acts).probed <==> exists k :: 0 <= k < |acts| && acts[k].Data? && rid in acts[k].rids
  {
    if acts != [] {
      var n := |acts| - 1;
      LegalPrefix(acts);
      ProbedForEver(acts[..n], rid);
      assert acts == acts[..n] + [acts[n]];
      if rid in After(acts[..n]).probed {
        var k :| 0 <= k < n && acts[..n][k].Data? && rid in acts[..n][k].rids;
        assert acts[k].Data? && rid in acts[k].rids;
      }
      forall k | 0 <= k < n && acts[k].Data? && rid in acts[k].rids ensures rid in After(acts[..n]).probed {
        assert acts[..n][k].Data? && rid in acts[..n][k].rids;
      }
    }
  }
}
