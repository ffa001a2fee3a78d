/**
 The sweep of one receiver's channels (server/recceiver/clean_tool.py:43-66, the inner loop of
 processor.py:438-461): page by page, until a query for Active channels comes back empty.
 */
module Sweep {
  import opened CfModel
  import opened Properties
  import opened PushDiff
  import opened Processor

  /** update_property on one channel; a channel has a property once. */
  function WithValue(ps: seq<Prop>, p: Prop): (r: seq<Prop>)
    ensures |r| == |ps|
    ensures forall k | 0 <= k < |ps| :: r[k] == if ps[k].name == p.name then p else ps[k]
  {
    if ps == [] then [] else [if ps[0].name == p.name then p else ps[0]] + WithValue(ps[1..], p)
  }

  predicate IsActiveFor(c: Channel, recceiver: string) {
    Has(c.props, PV_STATUS, ACTIVE) && Has(c.props, RECCEIVER_ID, recceiver)
  }

  function ActiveFor(cf: Cf, recceiver: string): set<string> {
    set n | n in cf && IsActiveFor(cf[n], recceiver)
  }

  function Swept(c: Channel, owner: string): Channel {
    c.(props := WithValue(c.props, Prop(PV_STATUS, owner, INACTIVE)))
  }

  function SweptAll(cf: Cf, names: set<string>, owner: string): Cf {
    map n | n in cf :: if n in names then Swept(cf[n], owner) else cf[n]
  }

  lemma SweptIsInactive(c: Channel, owner: string, recceiver: string)
    ensures !IsActiveFor(Swept(c, owner), recceiver)
  {
    var r := Swept(c, owner).props;
    forall p | p in r ensures !(p.name == PV_STATUS && p.value == ACTIVE) {
      var k :| 0 <= k < |r| && r[k] == p;
    }
  }

  /**
   One property of the channel now says Inactive, under the account of the sweep; the others are as they were, in
   their order.
   */
  ghost predicate MarkedInactive(before: Channel, after: Channel, owner: string) {
    && after.name == before.name && after.owner == before.owner
    && Sole(after.props, PV_STATUS, INACTIVE)
    && (forall q | q in after.props && q.name == PV_STATUS :: q.owner == owner)
    && Without(after.props, {PV_STATUS}) == Without(before.props, {PV_STATUS})
  }

  lemma {:induction false} WithValueKeepsTheRest(ps: seq<Prop>, p: Prop)
    ensures Without(WithValue(ps, p), {p.name}) == Without(ps, {p.name})
    decreases |ps|
  {
    if ps != [] {
      var n := |ps| - 1;
      WithValueKeepsTheRest(ps[..n], p);
      var r := WithValue(ps, p);
      assert r[..n] == WithValue(ps[..n], p);
    }
  }

  lemma WithValueOf(ps: seq<Prop>, p: Prop)
    requires exists q | q in ps :: q.name == p.name
    ensures p in WithValue(ps, p)
    ensures forall q | q in WithValue(ps, p) && q.name == p.name :: q == p
  {
    var r := WithValue(ps, p);
    var k :| 0 <= k < |ps| && ps[k].name == p.name;
    assert r[k] == p;
    forall q | q in r && q.name == p.name ensures q == p {
      var j :| 0 <= j < |r| && r[j] == q;
    }
  }

  lemma SweptIsMarked(c: Channel, owner: string)
    requires Has(c.props, PV_STATUS, ACTIVE)
    ensures MarkedInactive(c, Swept(c, owner), owner)
  {
    hide WithValue;
    var p := Prop(PV_STATUS, owner, INACTIVE);
    WithValueOf(c.props, p);
    WithValueKeepsTheRest(c.props, p);
  }

  /** After a sweep: Active channels of this receiver are marked, all others are as they were. */
  ghost predicate SweptClean(before: Cf, after: Cf, owner: string, recceiver: string) {
    && after.Keys == before.Keys
    && forall n | n in before ::
         if n in ActiveFor(before, recceiver) then MarkedInactive(before[n], after[n], owner)
         else after[n] == before[n]
  }

  lemma SweptAllIsClean(cf: Cf, owner: string, recceiver: string)
    ensures SweptClean(cf, SweptAll(cf, ActiveFor(cf, recceiver), owner), owner, recceiver)
  {
    hide Swept, MarkedInactive;
    forall n | n in ActiveFor(cf, recceiver) ensures MarkedInactive(cf[n], Swept(cf[n], owner), owner) {
      SweptIsMarked(cf[n], owner);
    }
  }

  lemma SweepPage(cf: Cf, page: set<string>, owner: string, recceiver: string)
    requires page <= ActiveFor(cf, recceiver)
    ensures ActiveFor(SweptAll(cf, page, owner), recceiver) == ActiveFor(cf, recceiver) - page
  {
    forall n | n in page ensures !IsActiveFor(Swept(cf[n], owner), recceiver) {
      SweptIsInactive(cf[n], owner, recceiver);
    }
  }

  lemma SweptUnion(cf: Cf, a: set<string>, b: set<string>, owner: string)
    requires a !! b
    ensures SweptAll(SweptAll(cf, a, owner), b, owner) == SweptAll(cf, a + b, owner)
  {
  }

  /** At most `limit` names of a set, and at least one unless it is empty; no limit if it is 0. */
  method PageOf(names: set<string>, limit: nat) returns (page: set<string>)
    ensures page <= names
    ensures |page| == if limit == 0 || |names| <= limit then |names| else limit
  {
    page := {};
    var rest := names;
    while rest != {} && (limit == 0 || |page| < limit)
      invariant page !! rest && page + rest == names
      invariant limit != 0 ==> |page| <= limit
      decreases rest
    {
      var n :| n in rest;
      page, rest := page + {n}, rest - {n};
    }
    assert |page + rest| == |page| + |rest|;
  }

  /** The channels `done` have been swept, the other Active ones not yet. */
  ghost predicate SweptSoFar(before: Cf, cf: Cf, owner: string, recceiver: string, done: set<string>) {
    && done <= ActiveFor(before, recceiver)
    && cf == SweptAll(before, done, owner)
    && ActiveFor(cf, recceiver) == ActiveFor(before, recceiver) - done
  }

  lemma SweptNothing(before: Cf, owner: string, recceiver: string)
    ensures SweptSoFar(before, before, owner, recceiver, {})
  {
  }

  lemma SetStep(all: set<string>, done: set<string>, page: set<string>)
    requires done <= all && page <= all - done
    ensures done + page <= all && done !! page && all - done - page == all - (done + page)
    ensures |done + page| == |done| + |page| && |all - done - page| == |all - done| - |page|
  {
    assert all - done == page + (all - done - page);
  }

  lemma SweepStep(before: Cf, cf: Cf, owner: string, recceiver: string, done: set<string>, page: set<string>)
    requires SweptSoFar(before, cf, owner, recceiver, done) && page <= ActiveFor(cf, recceiver)
    ensures SweptSoFar(before, SweptAll(cf, page, owner), owner, recceiver, done + page)
    ensures |done + page| == |done| + |page|
    ensures |ActiveFor(SweptAll(cf, page, owner), recceiver)| == |ActiveFor(cf, recceiver)| - |page|
  {
    hide ActiveFor, SweptAll;
    SweepPage(cf, page, owner, recceiver);
    SetStep(ActiveFor(before, recceiver), done, page);
    SweptUnion(before, done, page, owner);
  }

  lemma SweptEverything(before: Cf, cf: Cf, owner: string, recceiver: string, done: set<string>)
    requires SweptSoFar(before, cf, owner, recceiver, done) && ActiveFor(cf, recceiver) == {}
    ensures done == ActiveFor(before, recceiver) && cf == SweptAll(before, done, owner)
  {
    hide ActiveFor, SweptAll;
    var all := ActiveFor(before, recceiver);
    assert all == done + (all - done);
  }

  /**
   run_clean. A live run marks exactly the channels that were Active for this receiver, leaves every other
   channel as it was, reports how many there were, and ends whatever the page size. A dry run changes
   nothing and reports the size of the first page.
   */
  method RunClean(client: ChannelFinder, owner: string, recceiver: string, limit: nat, dryRun: bool)
    returns (total: nat)
    modifies client
    ensures !dryRun ==> total == |ActiveFor(old(client.channels), recceiver)|
    ensures !dryRun ==>
              client.channels == SweptAll(old(client.channels), ActiveFor(old(client.channels), recceiver), owner)
    ensures !dryRun ==> SweptClean(old(client.channels), client.channels, owner, recceiver)
    ensures dryRun ==> client.channels == old(client.channels)
    ensures dryRun ==> var n := |ActiveFor(old(client.channels), recceiver)|;
                       total == if limit == 0 || n <= limit then n else limit
  {
    hide ActiveFor, SweptAll, SweptSoFar, SweptClean;
    total := 0;
    ghost var before := client.channels;
    ghost var done: set<string> := {};
    SweptNothing(before, owner, recceiver);
    while true
      invariant SweptSoFar(before, client.channels, owner, recceiver, done) && total == |done|
      invariant dryRun ==> client.channels == before && done == {}
      decreases |ActiveFor(client.channels, recceiver)|
    {
      var page := PageOf(ActiveFor(client.channels, recceiver), limit);
      if page == {} {
        SweptEverything(before, client.channels, owner, recceiver, done);
        SweptAllIsClean(before, owner, recceiver);
        break;
      }
      total := total + |page|;
      if dryRun {
        break;
      }
      SweepStep(before, client.channels, owner, recceiver, done, page);
      client.channels := SweptAll(client.channels, page, owner);
      done := done + page;
    }
  }
}
