/**
 A push to ChannelFinder with everything that can go wrong, on values (server/recceiver/cf/processor.py:474-578,
 620-623, 795-797): requests that fail, writes that land although they are reported as failed, cancellations, and
 the attempts a push makes.
 */
module Pushing {
  import opened CfModel
  import opened Lists
  import opened Properties
  import opened ChannelIndex
  import opened PushDiff
  import NameQuery

  /**
   What becomes of one request; a write that is reported as failed may have landed. `cancel`: by the time of the
   answer, or before the next attempt, the commit has been cancelled.
   */
  datatype Answer =
    | Works(cancel: bool)
    | Fails(landed: bool, cancel: bool)

  /**
   All that will ever happen to the requests, by their number; and the order in which a set is listed by the
   answer to a request, or walked through after it.
   */
  datatype Script = Script(answers: nat -> Answer, listed: (nat, set<string>) -> seq<string>)

  ghost predicate Orderly(sc: Script) {
    forall k: nat, names: set<string> :: Enumerates(sc.listed(k, names), names)
  }

  /** ChannelFinder's contents, the number of requests made, and the processor's flag. */
  datatype World = World(cf: Cf, asked: nat, cancelled: bool)

  datatype Outcome = Done | RequestFailed | Cancelled

  datatype PushResult = Pushed | GaveUp | PushCancelled

  ghost predicate Ready(sc: Script, p: Push, limit: nat, w: World) {
    Orderly(sc) && Proper(p) && limit > 0 && WellKeyed(w.cf)
  }

  function Answered(sc: Script, w: World): World {
    w.(asked := w.asked + 1, cancelled := w.cancelled || sc.answers(w.asked).cancel)
  }

  /** `n` requests that change nothing, up to the first that fails. */
  function Ask(sc: Script, w: World, n: nat): (World, bool)
    decreases n
  {
    if n == 0 then (w, true)
    else if sc.answers(w.asked).Fails? then (Answered(sc, w), false)
    else Ask(sc, Answered(sc, w), n - 1)
  }

  predicate Lands(a: Answer) {
    a.Works? || a.landed
  }

  /** The list in portions of `limit` channels, up to the first that fails. */
  function Write(sc: Script, w: World, limit: nat, ws: seq<Channel>): (World, bool)
    requires limit > 0
    decreases |ws|
  {
    if ws == [] then (w, true) else
    var n := if |ws| < limit then |ws| else limit;
    var a := sc.answers(w.asked);
    var next := Answered(sc, w).(cf := if Lands(a) then Apply(w.cf, ws[..n]) else w.cf);
    if a.Fails? then (next, false) else Write(sc, next, limit, ws[n..])
  }

  /** The channels ChannelFinder lists under this IOC, and the names left over, in the order they come in. */
  function Olds(sc: Script, p: Push, w: World): seq<string> {
    sc.listed(w.asked, Tagged(w.cf, p.info.id))
  }

  function Order(sc: Script, p: Push, w: World): seq<string> {
    sc.listed(w.asked + 1, p.records.Keys - Tagged(w.cf, p.info.id))
  }

  function List(sc: Script, p: Push, w: World): seq<Channel>
    requires Ready(sc, p, 1, w)
  {
    Writes(p, w.cf, Olds(sc, p, w), Order(sc, p, w))
  }

  /** The requests of an attempt before anything is written: the old channels, then the leftover names in queries. */
  function Queries(sc: Script, p: Push, w: World): nat {
    1 + |NameQuery.Chunks(Order(sc, p, w))|
  }

  /** _update_channelfinder */
  function Attempt(sc: Script, p: Push, limit: nat, w: World): (World, Outcome)
    requires Ready(sc, p, limit, w)
  {
    if w.cancelled then (w, Cancelled) else
    var (asked, ok) := Ask(sc, w, Queries(sc, p, w));
    if !ok then (asked, RequestFailed)
    else if asked.cancelled then (asked, Cancelled)
    else
      var (written, fine) := Write(sc, asked, limit, List(sc, p, w));
      if !fine then (written, RequestFailed)
      else if written.cancelled then (written, Cancelled)
      else (written, Done)
  }

  // ---------------------------------------------------------------- how one attempt ends

  ghost predicate AllWork(sc: Script, from: nat, to: nat) {
    forall r: nat | from <= r < to :: sc.answers(r).Works?
  }

  ghost predicate Calm(sc: Script, from: nat, to: nat) {
    forall r: nat | from <= r < to :: !sc.answers(r).cancel
  }

  /** The number of portions: the last one may be smaller, none is empty. */
  function Portions(n: nat, limit: nat): (r: nat)
    requires limit > 0
    ensures n <= r * limit < n + limit
  {
    if n == 0 then 0 else if n <= limit then 1 else 1 + Portions(n - limit, limit)
  }

  /** The requests of an attempt that nothing disturbs. */
  function Needed(sc: Script, p: Push, limit: nat, w: World): nat
    requires Ready(sc, p, limit, w)
  {
    Queries(sc, p, w) + Portions(|List(sc, p, w)|, limit)
  }

  /** From `w` to `r` the flag is raised exactly by the cancellations among the answers read. */
  ghost predicate Tracks(sc: Script, w: World, r: World) {
    w.asked <= r.asked && (r.cancelled <==> w.cancelled || !Calm(sc, w.asked, r.asked))
  }

  lemma TracksInTurn(sc: Script, a: World, b: World, c: World)
    requires Tracks(sc, a, b) && Tracks(sc, b, c)
    ensures Tracks(sc, a, c)
  {
    if !Calm(sc, a.asked, c.asked) {
      var r: nat :| a.asked <= r < c.asked && sc.answers(r).cancel;
      assert r < b.asked ==> !Calm(sc, a.asked, b.asked);
      assert r >= b.asked ==> !Calm(sc, b.asked, c.asked);
    }
  }

  /**
   A series of `n` requests: it succeeds if and only if all work, and then all were made; otherwise the one that
   fails is the last one made.
   */
  ghost predicate Series(sc: Script, w: World, n: nat, r: World, ok: bool) {
    && Tracks(sc, w, r)
    && (ok <==> AllWork(sc, w.asked, w.asked + n))
    && (ok ==> r.asked == w.asked + n)
    && (!ok ==> w.asked < r.asked <= w.asked + n && sc.answers(r.asked - 1).Fails?)
  }

  lemma SeriesMore(sc: Script, w: World, n: nat, next: World, r: World, ok: bool)
    requires next.asked == w.asked + 1 && next.cancelled == (w.cancelled || sc.answers(w.asked).cancel)
    requires if sc.answers(w.asked).Fails? then r == next && !ok else Series(sc, next, n, r, ok)
    ensures Series(sc, w, n + 1, r, ok)
  {
    assert Tracks(sc, w, next);
    if sc.answers(w.asked).Works? {
      TracksInTurn(sc, w, next, r);
      assert AllWork(sc, w.asked, w.asked + (n + 1)) <==> AllWork(sc, next.asked, next.asked + n);
    }
  }

  lemma {:induction false} AskIsSeries(sc: Script, w: World, n: nat)
    ensures Series(sc, w, n, Ask(sc, w, n).0, Ask(sc, w, n).1)
    ensures Ask(sc, w, n).0.cf == w.cf
    decreases n
  {
    if n > 0 {
      if sc.answers(w.asked).Works? {
        AskIsSeries(sc, Answered(sc, w), n - 1);
      }
      SeriesMore(sc, w, n - 1, Answered(sc, w), Ask(sc, w, n).0, Ask(sc, w, n).1);
    }
  }

  lemma {:induction false} WriteIsSeries(sc: Script, w: World, limit: nat, ws: seq<Channel>)
    requires limit > 0
    ensures Series(sc, w, Portions(|ws|, limit), Write(sc, w, limit, ws).0, Write(sc, w, limit, ws).1)
    decreases |ws|
  {
    if ws != [] {
      hide Apply;
      var n := if |ws| < limit then |ws| else limit;
      var next := Answered(sc, w).(cf := if Lands(sc.answers(w.asked)) then Apply(w.cf, ws[..n]) else w.cf);
      if sc.answers(w.asked).Works? {
        WriteIsSeries(sc, next, limit, ws[n..]);
      }
      assert Portions(|ws|, limit) == Portions(|ws[n..]|, limit) + 1;
      SeriesMore(sc, w, Portions(|ws[n..]|, limit), next, Write(sc, w, limit, ws).0, Write(sc, w, limit, ws).1);
    }
  }

  lemma AskMore(sc: Script, w: World, n: nat)
    ensures var (r, ok) := Ask(sc, w, 1);
            && r.asked == w.asked + 1
            && Ask(sc, w, 1 + n) == if ok then Ask(sc, r, n) else (r, false)
  {
  }

  /** What lands is a prefix of the list, the whole list on success. */
  lemma {:induction false} WriteLands(sc: Script, w: World, limit: nat, ws: seq<Channel>) returns (k: nat)
    requires limit > 0
    ensures k <= |ws| && Write(sc, w, limit, ws).0.cf == Apply(w.cf, ws[..k])
    ensures Write(sc, w, limit, ws).1 ==> k == |ws|
    decreases |ws|
  {
    k := 0;
    if ws != [] {
      var n := if |ws| < limit then |ws| else limit;
      var a := sc.answers(w.asked);
      assert Apply(w.cf, ws[..0]) == w.cf;
      hide Apply;
      if a.Fails? {
        k := if a.landed then n else 0;
      } else {
        var next := Answered(sc, w).(cf := Apply(w.cf, ws[..n]));
        var rest := WriteLands(sc, next, limit, ws[n..]);
        ApplyConcat(w.cf, ws[..n], ws[n..][..rest]);
        assert ws[..n] + ws[n..][..rest] == ws[..n + rest];
        k := n + rest;
      }
    }
  }

  /**
   How an attempt ends, from the answers alone: it is done if and only if nothing fails and nothing was cancelled
   by its end; it is cancelled if and only if it was before it started, or was by the end of its queries, or of its
   writes, without a failure before; otherwise the last request it made has failed.
   */
  lemma AttemptEndsIff(sc: Script, p: Push, limit: nat, w: World)
    requires Ready(sc, p, limit, w)
    ensures var (r, o) := Attempt(sc, p, limit, w);
            var asked, all := w.asked + Queries(sc, p, w), w.asked + Needed(sc, p, limit, w);
            && Tracks(sc, w, r)
            && (o == Done <==> !w.cancelled && AllWork(sc, w.asked, all) && Calm(sc, w.asked, all))
            && (o == Cancelled <==>
                  || w.cancelled
                  || (AllWork(sc, w.asked, asked) && !Calm(sc, w.asked, asked))
                  || (AllWork(sc, w.asked, all) && !Calm(sc, w.asked, all)))
            && (o == RequestFailed ==> w.asked < r.asked && sc.answers(r.asked - 1).Fails?)
            && (o == Done ==> r.asked == all) && (o == Cancelled ==> r.cancelled)
  {
    hide Ask, Write, Writes, Choices, Enumerates, Tagged, Portions, Queries, AllWork, Calm, Proper, WellKeyed, Orderly;
    if !w.cancelled {
      var n := Queries(sc, p, w);
      var (a, ok) := Ask(sc, w, n);
      AskIsSeries(sc, w, n);
      var ws := List(sc, p, w);
      var m := Portions(|ws|, limit);
      InTurn(sc, w.asked, w.asked + n, w.asked + n + m);
      if ok && !a.cancelled {
        var r := Write(sc, a, limit, ws).0;
        WriteIsSeries(sc, a, limit, ws);
        TracksInTurn(sc, w, a, r);
      }
    }
  }

  lemma InTurn(sc: Script, a: nat, b: nat, c: nat)
    requires a <= b <= c
    ensures AllWork(sc, a, c) <==> AllWork(sc, a, b) && AllWork(sc, b, c)
    ensures Calm(sc, a, c) <==> Calm(sc, a, b) && Calm(sc, b, c)
  {
  }

  // ---------------------------------------------------------------- what one attempt leaves behind

  /** Part of a commit's list, possibly nothing, has been written; the whole of it if the attempt is done. */
  ghost predicate PartLanded(p: Push, before: Cf, after: Cf, olds: seq<string>, order: seq<string>, k: nat) {
    && Choices(p, before, olds, order)
    && k <= |Writes(p, before, olds, order)| && after == Landed(p, before, olds, order, k)
  }

  lemma AttemptLands(sc: Script, p: Push, limit: nat, w: World) returns (k: nat)
    requires Ready(sc, p, limit, w)
    ensures PartLanded(p, w.cf, Attempt(sc, p, limit, w).0.cf, Olds(sc, p, w), Order(sc, p, w), k)
    ensures Attempt(sc, p, limit, w).1 == Done ==> k == |List(sc, p, w)|
  {
    hide Ask, Write, Writes, Queries;
    k := 0;
    var ws := List(sc, p, w);
    assert Apply(w.cf, ws[..0]) == w.cf;
    hide Apply;
    var (a, ok) := Ask(sc, w, Queries(sc, p, w));
    AskIsSeries(sc, w, Queries(sc, p, w));
    if !w.cancelled && ok && !a.cancelled {
      k := WriteLands(sc, a, limit, ws);
    }
  }

  /** What no number of attempts, complete or broken off, can violate. */
  ghost predicate Preserved(p: Push, before: Cf, after: Cf) {
    && WellKeyed(after)
    && (forall n | n !in p.records && n !in Tagged(before, p.info.id) ::
          (n in after <==> n in before) && (n in before ==> after[n] == before[n]))
    && (forall n | n in before ::
          n in after && Without(after[n].props, p.managed) == Without(before[n].props, p.managed))
  }

  ghost predicate Converged(p: Push, after: Cf) {
    forall n | n in p.records ::
      n in after && Sole(after[n].props, PV_STATUS, ACTIVE) && Sole(after[n].props, TIME, p.info.time)
  }

  lemma LandingPreserves(p: Push, before: Cf, after: Cf, olds: seq<string>, order: seq<string>, k: nat)
    requires WritesManaged(p) && PartLanded(p, before, after, olds, order, k)
    ensures Preserved(p, before, after)
  {
    LandedIsWellKeyed(p, before, olds, order, k);
    forall n | n !in p.records && n !in Tagged(before, p.info.id)
      ensures (n in after <==> n in before) && (n in before ==> after[n] == before[n])
    {
      OthersUntouched(p, before, olds, order, k, n);
    }
    forall n | n in before
      ensures n in after && Without(after[n].props, p.managed) == Without(before[n].props, p.managed)
    {
      UserPropertiesSurvive(p, before, olds, order, k, n);
    }
  }

  lemma LandingConverges(p: Push, before: Cf, after: Cf, olds: seq<string>, order: seq<string>, k: nat)
    requires WritesManaged(p) && NoClash(p) && PartLanded(p, before, after, olds, order, k)
    requires k == |Writes(p, before, olds, order)|
    ensures Converged(p, after)
  {
    forall n | n in p.records
      ensures n in after && Sole(after[n].props, PV_STATUS, ACTIVE) && Sole(after[n].props, TIME, p.info.time)
    {
      PushConverges(p, before, olds, order, n);
    }
  }

  /** Attempts compose: an untouched channel is still untagged before the next attempt. */
  lemma PreservedIsTransitive(p: Push, a: Cf, b: Cf, c: Cf)
    requires Preserved(p, a, b) && Preserved(p, b, c)
    ensures Preserved(p, a, c)
  {
    forall n | n !in p.records && n !in Tagged(a, p.info.id) ensures n !in Tagged(b, p.info.id) {
    }
  }

  // ---------------------------------------------------------------- attempt after attempt

  /** The configured number of attempts, unless the service is stopped before that. */
  function Budget(always: bool, most: nat, stopAfter: nat): nat {
    if always || stopAfter < most then stopAfter else most
  }

  /** The world after `k` attempts. */
  function WorldAt(sc: Script, p: Push, limit: nat, w: World, k: nat): (r: World)
    requires Ready(sc, p, limit, w)
    ensures Ready(sc, p, limit, r)
    decreases k
  {
    if k == 0 then w else
    var before := WorldAt(sc, p, limit, w, k - 1);
    AttemptKeepsKeys(sc, p, limit, before);
    Attempt(sc, p, limit, before).0
  }

  lemma AttemptKeepsKeys(sc: Script, p: Push, limit: nat, w: World)
    requires Ready(sc, p, limit, w)
    ensures WellKeyed(Attempt(sc, p, limit, w).0.cf)
  {
    hide Attempt, Landed, Writes;
    var k := AttemptLands(sc, p, limit, w);
    LandedIsWellKeyed(p, w.cf, Olds(sc, p, w), Order(sc, p, w), k);
  }

  function OutcomeAt(sc: Script, p: Push, limit: nat, w: World, k: nat): Outcome
    requires Ready(sc, p, limit, w)
  {
    Attempt(sc, p, limit, WorldAt(sc, p, limit, w, k)).1
  }

  ghost predicate AllFailed(sc: Script, p: Push, limit: nat, w: World, k: nat)
    requires Ready(sc, p, limit, w)
  {
    forall j: nat | j < k :: OutcomeAt(sc, p, limit, w, j) == RequestFailed
  }

  /** How a push ends: with the first attempt that does not fail, or with its budget. */
  ghost predicate Ends(sc: Script, p: Push, limit: nat, w: World, budget: nat, result: PushResult, attempts: nat)
    requires Ready(sc, p, limit, w)
  {
    if result == GaveUp then attempts == budget && AllFailed(sc, p, limit, w, budget)
    else
      && 0 < attempts <= budget && AllFailed(sc, p, limit, w, attempts - 1)
      && OutcomeAt(sc, p, limit, w, attempts - 1) == if result == Pushed then Done else Cancelled
  }

  lemma WorldStarts(sc: Script, p: Push, limit: nat, w: World)
    requires Ready(sc, p, limit, w)
    ensures WorldAt(sc, p, limit, w, 0) == w && AllFailed(sc, p, limit, w, 0)
  {
  }

  /** What one more attempt means for a push of which all attempts have failed. */
  lemma NextAttempt(sc: Script, p: Push, limit: nat, w: World, k: nat, budget: nat)
    requires Ready(sc, p, limit, w) && AllFailed(sc, p, limit, w, k) && k < budget
    ensures var (r, o) := Attempt(sc, p, limit, WorldAt(sc, p, limit, w, k));
            && r == WorldAt(sc, p, limit, w, k + 1)
            && match o
               case RequestFailed => AllFailed(sc, p, limit, w, k + 1)
               case Done => Ends(sc, p, limit, w, budget, Pushed, k + 1) && Promised(p, w.cf, r.cf, Pushed)
               case Cancelled =>
                 Ends(sc, p, limit, w, budget, PushCancelled, k + 1) && Promised(p, w.cf, r.cf, PushCancelled)
  {
    hide Attempt, Promised, Ready;
    var o := OutcomeAt(sc, p, limit, w, k);
    if o != RequestFailed {
      var result := if o == Done then Pushed else PushCancelled;
      PromiseKept(sc, p, limit, w, budget, result, k + 1);
    }
  }

  lemma GivingUp(sc: Script, p: Push, limit: nat, w: World, budget: nat)
    requires Ready(sc, p, limit, w) && AllFailed(sc, p, limit, w, budget)
    ensures Ends(sc, p, limit, w, budget, GaveUp, budget)
    ensures Promised(p, w.cf, WorldAt(sc, p, limit, w, budget).cf, GaveUp)
  {
    hide WorldAt, Promised, Ready;
    PromiseKept(sc, p, limit, w, budget, GaveUp, budget);
  }

  lemma {:induction false} PushPreserves(sc: Script, p: Push, limit: nat, w: World, k: nat)
    requires Ready(sc, p, limit, w) && WritesManaged(p)
    ensures Preserved(p, w.cf, WorldAt(sc, p, limit, w, k).cf)
    decreases k
  {
    hide Attempt, WritesManaged, Preserved, Landed, Writes;
    if k == 0 {
      NothingPreserves(p, w.cf);
    } else {
      var before := WorldAt(sc, p, limit, w, k - 1);
      PushPreserves(sc, p, limit, w, k - 1);
      var n := AttemptLands(sc, p, limit, before);
      var after := WorldAt(sc, p, limit, w, k);
      LandingPreserves(p, before.cf, after.cf, Olds(sc, p, before), Order(sc, p, before), n);
      PreservedIsTransitive(p, w.cf, before.cf, after.cf);
    }
  }

  lemma NothingPreserves(p: Push, cf: Cf)
    requires WellKeyed(cf)
    ensures Preserved(p, cf, cf)
  {
  }

  lemma PushedConverges(sc: Script, p: Push, limit: nat, w: World, k: nat)
    requires Ready(sc, p, limit, w) && WritesManaged(p) && NoClash(p) && OutcomeAt(sc, p, limit, w, k) == Done
    ensures Converged(p, WorldAt(sc, p, limit, w, k + 1).cf)
  {
    hide Attempt, WritesManaged, NoClash, Converged, Landed;
    var before := WorldAt(sc, p, limit, w, k);
    var n := AttemptLands(sc, p, limit, before);
    var after := WorldAt(sc, p, limit, w, k + 1);
    LandingConverges(p, before.cf, after.cf, Olds(sc, p, before), Order(sc, p, before), n);
  }

  /** What a push, however it ends, has left of the contents it found. */
  ghost predicate Promised(p: Push, before: Cf, after: Cf, result: PushResult) {
    && (WritesManaged(p) ==> Preserved(p, before, after))
    && (WritesManaged(p) && NoClash(p) && result == Pushed ==> Converged(p, after))
  }

  lemma PromiseKept(sc: Script, p: Push, limit: nat, w: World, budget: nat, result: PushResult, attempts: nat)
    requires Ready(sc, p, limit, w) && Ends(sc, p, limit, w, budget, result, attempts)
    ensures Promised(p, w.cf, WorldAt(sc, p, limit, w, attempts).cf, result)
  {
    hide WorldAt, OutcomeAt, WritesManaged, NoClash, Preserved, Converged;
    if WritesManaged(p) {
      PushPreserves(sc, p, limit, w, attempts);
      if NoClash(p) && result == Pushed {
        PushedConverges(sc, p, limit, w, attempts - 1);
      }
    }
  }

  lemma {:induction false} WorldTracks(sc: Script, p: Push, limit: nat, w: World, j: nat, k: nat)
    requires Ready(sc, p, limit, w) && j <= k
    ensures Tracks(sc, WorldAt(sc, p, limit, w, j), WorldAt(sc, p, limit, w, k))
    decreases k - j
  {
    hide Attempt;
    if j < k {
      WorldTracks(sc, p, limit, w, j, k - 1);
      var before := WorldAt(sc, p, limit, w, k - 1);
      AttemptEndsIff(sc, p, limit, before);
      TracksInTurn(sc, WorldAt(sc, p, limit, w, j), before, WorldAt(sc, p, limit, w, k));
    }
  }

  /** Attempt `k` meets no failure, and no cancellation comes before it ends. */
  ghost predicate GetsThrough(sc: Script, p: Push, limit: nat, w: World, k: nat)
    requires Ready(sc, p, limit, w)
  {
    var v := WorldAt(sc, p, limit, w, k);
    var end := v.asked + Needed(sc, p, limit, v);
    AllWork(sc, v.asked, end) && Calm(sc, w.asked, end) && !w.cancelled
  }

  lemma ThroughIsDone(sc: Script, p: Push, limit: nat, w: World, k: nat)
    requires Ready(sc, p, limit, w) && GetsThrough(sc, p, limit, w, k)
    ensures OutcomeAt(sc, p, limit, w, k) == Done
    ensures !WorldAt(sc, p, limit, w, k + 1).cancelled
  {
    hide Attempt, Needed;
    var v := WorldAt(sc, p, limit, w, k);
    WorldTracks(sc, p, limit, w, 0, k);
    AttemptEndsIff(sc, p, limit, v);
    InTurn(sc, w.asked, v.asked, v.asked + Needed(sc, p, limit, v));
  }

  lemma DoneIsThrough(sc: Script, p: Push, limit: nat, w: World, k: nat)
    requires Ready(sc, p, limit, w) && OutcomeAt(sc, p, limit, w, k) == Done
    ensures GetsThrough(sc, p, limit, w, k)
  {
    hide Attempt, Needed;
    var v := WorldAt(sc, p, limit, w, k);
    WorldTracks(sc, p, limit, w, 0, k);
    AttemptEndsIff(sc, p, limit, v);
    InTurn(sc, w.asked, v.asked, v.asked + Needed(sc, p, limit, v));
  }

  /** An attempt that was cancelled leaves the flag raised for all that follow. */
  lemma CancelledStays(sc: Script, p: Push, limit: nat, w: World, j: nat, k: nat)
    requires Ready(sc, p, limit, w) && j < k && OutcomeAt(sc, p, limit, w, j) == Cancelled
    ensures WorldAt(sc, p, limit, w, k).cancelled
  {
    hide Attempt;
    AttemptEndsIff(sc, p, limit, WorldAt(sc, p, limit, w, j));
    WorldTracks(sc, p, limit, w, j + 1, k);
  }

  /** A push succeeds if and only if some attempt within the budget gets through. */
  lemma PushedIff(sc: Script, p: Push, limit: nat, w: World, budget: nat, result: PushResult, attempts: nat)
    requires Ready(sc, p, limit, w) && Ends(sc, p, limit, w, budget, result, attempts)
    ensures result == Pushed <==> exists k: nat :: k < budget && GetsThrough(sc, p, limit, w, k)
  {
    hide GetsThrough, OutcomeAt, WorldAt;
    if result == Pushed {
      DoneIsThrough(sc, p, limit, w, attempts - 1);
    } else if k: nat :| k < budget && GetsThrough(sc, p, limit, w, k) {
      ThroughIsDone(sc, p, limit, w, k);
      CancelledStays(sc, p, limit, w, attempts - 1, k + 1);
    }
  }

  /** Attempt `k` ends on a cancellation: before it, by the end of its queries, or by the end of its writes. */
  ghost predicate IsCancelledIn(sc: Script, p: Push, limit: nat, w: World, k: nat)
    requires Ready(sc, p, limit, w)
  {
    var v := WorldAt(sc, p, limit, w, k);
    var asked, end := v.asked + Queries(sc, p, v), v.asked + Needed(sc, p, limit, v);
    || w.cancelled || !Calm(sc, w.asked, v.asked)
    || (AllWork(sc, v.asked, asked) && !Calm(sc, v.asked, asked))
    || (AllWork(sc, v.asked, end) && !Calm(sc, v.asked, end))
  }

  /** Attempt `k` ends on a failure: one of its requests fails before a cancellation is noticed. */
  ghost predicate FailsIn(sc: Script, p: Push, limit: nat, w: World, k: nat)
    requires Ready(sc, p, limit, w)
  {
    var v := WorldAt(sc, p, limit, w, k);
    var asked, end := v.asked + Queries(sc, p, v), v.asked + Needed(sc, p, limit, v);
    && !w.cancelled && Calm(sc, w.asked, v.asked)
    && !AllWork(sc, v.asked, end)
    && (AllWork(sc, v.asked, asked) ==> Calm(sc, v.asked, asked))
  }

  lemma OutcomeIff(sc: Script, p: Push, limit: nat, w: World, k: nat)
    requires Ready(sc, p, limit, w)
    ensures OutcomeAt(sc, p, limit, w, k) == Cancelled <==> IsCancelledIn(sc, p, limit, w, k)
    ensures OutcomeAt(sc, p, limit, w, k) == RequestFailed <==> FailsIn(sc, p, limit, w, k)
  {
    hide Attempt, Needed, Queries;
    var v := WorldAt(sc, p, limit, w, k);
    WorldTracks(sc, p, limit, w, 0, k);
    AttemptEndsIff(sc, p, limit, v);
  }

  /**
   The other two ends: a push is cancelled if and only if a cancellation ends an attempt within the budget before
   which all have failed; it gives up if and only if its whole budget has gone on failures. Either way, and also on
   success, every attempt but the last one has failed.
   */
  lemma AbandonedIff(sc: Script, p: Push, limit: nat, w: World, budget: nat, result: PushResult, attempts: nat)
    requires Ready(sc, p, limit, w) && Ends(sc, p, limit, w, budget, result, attempts)
    ensures result == PushCancelled <==>
              exists k: nat :: k < budget && IsCancelledIn(sc, p, limit, w, k)
                               && forall j: nat | j < k :: FailsIn(sc, p, limit, w, j)
    ensures result == GaveUp <==> forall j: nat | j < budget :: FailsIn(sc, p, limit, w, j)
    ensures forall j: nat | j + 1 < attempts :: FailsIn(sc, p, limit, w, j)
    ensures result != GaveUp ==> 0 < attempts <= budget && !FailsIn(sc, p, limit, w, attempts - 1)
    ensures result == GaveUp ==> attempts == budget
  {
    hide IsCancelledIn, FailsIn, OutcomeAt;
    forall k: nat
      ensures OutcomeAt(sc, p, limit, w, k) == Cancelled <==> IsCancelledIn(sc, p, limit, w, k)
      ensures OutcomeAt(sc, p, limit, w, k) == RequestFailed <==> FailsIn(sc, p, limit, w, k)
    {
      OutcomeIff(sc, p, limit, w, k);
    }
    if result == PushCancelled {
      assert IsCancelledIn(sc, p, limit, w, attempts - 1);
    }
  }

  /** Failed attempts have made at least one request each. */
  lemma {:induction false} FailuresAsk(sc: Script, p: Push, limit: nat, w: World, k: nat)
    requires Ready(sc, p, limit, w) && AllFailed(sc, p, limit, w, k)
    ensures w.asked + k <= WorldAt(sc, p, limit, w, k).asked
    ensures k > 0 ==> sc.answers(WorldAt(sc, p, limit, w, k).asked - 1).Fails?
    decreases k
  {
    hide Attempt;
    if k > 0 {
      FailuresAsk(sc, p, limit, w, k - 1);
      assert OutcomeAt(sc, p, limit, w, k - 1) == RequestFailed;
      AttemptEndsIff(sc, p, limit, WorldAt(sc, p, limit, w, k - 1));
    }
  }

  /**
   Retrying gets there: if nobody cancels and from some request on nothing fails any more, a budget larger than the
   number of requests until then suffices.
   */
  lemma RetriesSuffice(sc: Script, p: Push, limit: nat, w: World, budget: nat, result: PushResult, attempts: nat,
                       quiet: nat)
    requires Ready(sc, p, limit, w) && Ends(sc, p, limit, w, budget, result, attempts)
    requires !w.cancelled && forall r: nat | w.asked <= r :: !sc.answers(r).cancel
    requires forall r: nat | w.asked + quiet <= r :: sc.answers(r).Works?
    requires quiet < budget
    ensures result == Pushed && attempts <= quiet + 1
  {
    hide Attempt, WorldAt;
    WorldTracks(sc, p, limit, w, 0, attempts);
    WorldTracks(sc, p, limit, w, 0, 0);
    WorldStarts(sc, p, limit, w);
    if result == GaveUp {
      FailuresAsk(sc, p, limit, w, budget);
    } else {
      FailuresAsk(sc, p, limit, w, attempts - 1);
      if result == PushCancelled {
        CancelledStays(sc, p, limit, w, attempts - 1, attempts);
      }
    }
  }

}
