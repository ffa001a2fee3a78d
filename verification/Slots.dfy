/**
 CastFactory's upload slots on values (server/recceiver/recast.py:47-65, 181-182, 359-395): at most
 `max` connections upload at a time, the others wait in order of arrival, and a slot is given back either
 when the upload is done or when the connection is lost.
 */
module Slots {
  import opened Lists

  /** `served`: the connection has been given a slot at some time. */
  datatype Conn = Conn(active: bool, open: bool, served: bool)

  /** Connections are numbered in order of arrival. `admitted` and `freed` record who got and gave back a slot. */
  datatype State = State(nActive: int, wait: seq<nat>, conns: seq<Conn>, admitted: seq<nat>, freed: seq<nat>)

  datatype Event = Connect | Done(c: nat) | Lost(c: nat)

  const START := State(0, [], [], [], [])

  function Remove(wait: seq<nat>, c: nat): seq<nat> {
    if wait == [] then [] else
    if wait[0] == c then wait[1..] else [wait[0]] + Remove(wait[1..], c)
  }

  function Build(s: State, max: nat): State {
    var active, c := s.nActive < max, |s.conns|;
    if active then
      State(s.nActive + 1, s.wait, s.conns + [Conn(true, true, true)], s.admitted + [c], s.freed)
    else
      State(s.nActive, s.wait + [c], s.conns + [Conn(false, true, false)], s.admitted, s.freed)
  }

  function Promote(conns: seq<Conn>, w: nat): (r: seq<Conn>)
    ensures |r| == |conns|
  {
    if w < |conns| then conns[w := conns[w].(active := true, served := true)] else conns
  }

  /** isDone: the slot goes to the connection waiting longest, or becomes free. */
  function Release(s: State, c: nat): State
    requires c < |s.conns|
  {
    if !s.conns[c].active then s.(wait := Remove(s.wait, c))
    else if s.wait != [] then
      var w := s.wait[0];
      State(s.nActive, s.wait[1..], Promote(s.conns, w), s.admitted + [w], s.freed + [c])
    else s.(nActive := s.nActive - 1, freed := s.freed + [c])
  }

  /** A paused connection delivers nothing, and a lost one is lost once. */
  ghost predicate Legal(s: State, e: Event) {
    match e
    case Connect => true
    case Done(c) => c < |s.conns| && s.conns[c].open && s.conns[c].served
    case Lost(c) => c < |s.conns| && s.conns[c].open
  }

  function Next(s: State, max: nat, e: Event): State
    requires Legal(s, e)
  {
    match e
    case Connect => Build(s, max)
    case Done(c) =>
      var r := Release(s, c);
      r.(conns := r.conns[c := r.conns[c].(active := false)])
    case Lost(c) =>
      var r := Release(s, c);
      r.(conns := r.conns[c := r.conns[c].(open := false)])
  }

  ghost predicate IsRun(max: nat, es: seq<Event>)
    decreases |es|, 0
  {
    es == [] || (IsRun(max, es[..|es| - 1]) && Legal(Run(max, es[..|es| - 1]), es[|es| - 1]))
  }

  /** The state after a sequence of events in any order. */
  ghost function Run(max: nat, es: seq<Event>): State
    requires IsRun(max, es)
    decreases |es|, 1
  {
    if es == [] then START else Next(Run(max, es[..|es| - 1]), max, es[|es| - 1])
  }

  // ---------------------------------------------------------------- the invariant

  ghost predicate InRange(s: State) {
    forall k | 0 <= k < |s.wait| :: s.wait[k] < |s.conns|
  }

  /** Connections holding a slot. */
  function Holders(conns: seq<Conn>): set<nat> {
    set c: nat | c < |conns| && conns[c].open && conns[c].active
  }

  ghost predicate Increasing(s: seq<nat>) {
    forall i, j | 0 <= i < j < |s| :: s[i] < s[j]
  }

  ghost predicate Counted(s: State, max: nat) {
    && s.nActive == |Holders(s.conns)| && 0 <= s.nActive <= max
    && (s.wait != [] ==> s.nActive == max)
  }

  ghost predicate Queued(conns: seq<Conn>, c: nat) {
    c < |conns| && conns[c].open && !conns[c].served
  }

  ghost predicate Served(conns: seq<Conn>, c: nat) {
    c < |conns| && conns[c].served
  }

  ghost predicate GaveBack(conns: seq<Conn>, c: nat) {
    c < |conns| && Over(conns[c])
  }

  /** What a connection is after it gave back its slot. */
  ghost predicate Over(x: Conn) {
    x.served && !(x.open && x.active)
  }

  /** The wait list holds exactly the open connections that never had a slot. */
  ghost predicate Waiting(s: State) {
    && (forall c: nat :: c in s.wait <==> Queued(s.conns, c))
    && (forall c | 0 <= c < |s.conns| && s.conns[c].active :: s.conns[c].served)
  }

  /** Slots are given in order of arrival, and nobody who waits is passed over. */
  ghost predicate Ordered(s: State) {
    && Increasing(s.wait) && Increasing(s.admitted)
    && (forall c | c in s.admitted :: c < |s.conns|)
    && forall i, j | 0 <= i < |s.admitted| && 0 <= j < |s.wait| :: s.admitted[i] < s.wait[j]
  }

  /** A slot is given back once, by a connection that had it. */
  ghost predicate Balanced(s: State) {
    && NoDups(s.freed)
    && (forall c: nat :: c in s.freed <==> GaveBack(s.conns, c))
    && (forall c: nat :: c in s.admitted <==> Served(s.conns, c))
    && |s.admitted| == |s.freed| + s.nActive
  }

  ghost predicate Inv(s: State, max: nat) {
    InRange(s) && Counted(s, max) && Waiting(s) && Ordered(s) && Balanced(s)
  }

  lemma {:induction false} RemoveMembers(wait: seq<nat>, c: nat)
    requires Increasing(wait)
    ensures forall d: nat :: d in Remove(wait, c) <==> d in wait && d != c
  {
    if wait != [] {
      assert wait == [wait[0]] + wait[1..];
      if wait[0] != c {
        RemoveMembers(wait[1..], c);
      }
    }
  }

  lemma {:induction false} RemoveOrder(wait: seq<nat>, c: nat)
    requires Increasing(wait)
    ensures Increasing(Remove(wait, c))
  {
    if wait != [] && wait[0] != c {
      var rest := wait[1..];
      RemoveOrder(rest, c);
      RemoveMembers(rest, c);
      var r := Remove(rest, c);
      forall j | 0 <= j < |r| ensures wait[0] < r[j] {
        assert r[j] in r && r[j] in rest;
      }
    }
  }

  lemma IncreasingSnoc(s: seq<nat>, c: nat)
    requires Increasing(s) && forall d | d in s :: d < c
    ensures Increasing(s + [c])
  {
    forall i, j | 0 <= i < j < |s| + 1 ensures (s + [c])[i] < (s + [c])[j] {
      assert s[i] in s;
    }
  }

  lemma BuildKeepsInv(s: State, max: nat)
    requires Inv(s, max)
    ensures Inv(Build(s, max), max)
  {
    var r, c := Build(s, max), |s.conns|;
    assert Holders(r.conns) == Holders(s.conns) + if s.nActive < max then {c} else {};
    BuildKeepsOrder(s, max);
    BuildKeepsWaiting(s, max);
    BuildKeepsBalanced(s, max);
  }

  lemma BuildKeepsOrder(s: State, max: nat)
    requires InRange(s) && Counted(s, max) && Ordered(s)
    ensures Ordered(Build(s, max))
  {
    assert s.nActive < max ==> s.wait == [];
    IncreasingSnoc(s.admitted, |s.conns|);
    IncreasingSnoc(s.wait, |s.conns|);
    assert forall i | 0 <= i < |s.admitted| :: s.admitted[i] in s.admitted;
  }

  lemma BuildKeepsWaiting(s: State, max: nat)
    requires InRange(s) && Waiting(s)
    ensures Waiting(Build(s, max))
  {
    var r, c := Build(s, max), |s.conns|;
    forall d: nat ensures d in r.wait <==> Queued(r.conns, d) {
      assert d < c ==> r.conns[d] == s.conns[d];
    }
  }

  lemma BuildKeepsBalanced(s: State, max: nat)
    requires InRange(s) && Balanced(s)
    ensures Balanced(Build(s, max))
  {
    var r, c := Build(s, max), |s.conns|;
    forall d: nat ensures d in r.admitted <==> Served(r.conns, d) {
      assert d < c ==> r.conns[d] == s.conns[d];
    }
    forall d: nat ensures d in r.freed <==> GaveBack(r.conns, d) {
      assert d < c ==> r.conns[d] == s.conns[d];
    }
  }

  lemma PopWait(s: State)
    requires InRange(s) && Waiting(s) && Ordered(s) && s.wait != []
    ensures var w := s.wait[0];
            && w < |s.conns| && s.conns[w].open && !s.conns[w].served && !s.conns[w].active
            && Increasing(s.wait[1..]) && Increasing(s.admitted + [w])
            && forall d: nat :: d in s.wait[1..] <==> d in s.wait && d != w
  {
    var w, rest := s.wait[0], s.wait[1..];
    assert s.wait == [w] + rest;
    assert w in s.wait;
    assert forall d | d in rest :: w < d;
  }

  ghost predicate Holds(s: State, c: nat) {
    c < |s.conns| && s.conns[c].open && s.conns[c].active
  }

  /** A slot passed on: `w` gets what `c` gives back. */
  function PassedOn(s: State, c: nat, x: Conn): State
    requires InRange(s) && s.wait != [] && c < |s.conns|
  {
    var w := s.wait[0];
    State(s.nActive, s.wait[1..], Promote(s.conns, w)[c := x],
          s.admitted + [w], s.freed + [c])
  }

  lemma SwapHolder(conns: seq<Conn>, w: nat, c: nat, y: Conn, x: Conn)
    requires w < |conns| && c < |conns| && w in Holders(conns[w := y]) && w !in Holders(conns)
    requires c in Holders(conns) && !(x.open && x.active) && w != c
    ensures |Holders(conns[w := y][c := x])| == |Holders(conns)|
  {
    var h := Holders(conns);
    assert Holders(conns[w := y][c := x]) == h + {w} - {c};
  }

  lemma PassedOnCounted(s: State, max: nat, c: nat, x: Conn)
    requires Inv(s, max) && Holds(s, c) && s.wait != [] && Over(x)
    ensures Counted(PassedOn(s, c, x), max) && InRange(PassedOn(s, c, x))
  {
    PopWait(s);
    var w := s.wait[0];
    var y := s.conns[w].(active := true, served := true);
    assert w in Holders(s.conns[w := y]);
    SwapHolder(s.conns, w, c, y, x);
  }

  lemma PassedOnWaiting(s: State, max: nat, c: nat, x: Conn)
    requires Inv(s, max) && Holds(s, c) && s.wait != [] && Over(x)
    ensures Waiting(PassedOn(s, c, x)) && Ordered(PassedOn(s, c, x))
  {
    PopWait(s);
    var r, w := PassedOn(s, c, x), s.wait[0];
    forall d: nat ensures d in r.wait <==> Queued(r.conns, d) {
      assert d in s.wait <==> Queued(s.conns, d);
    }
  }

  lemma PassedOnBalanced(s: State, max: nat, c: nat, x: Conn)
    requires Inv(s, max) && Holds(s, c) && s.wait != [] && Over(x)
    ensures Balanced(PassedOn(s, c, x))
  {
    PopWait(s);
    var r, w := PassedOn(s, c, x), s.wait[0];
    forall d: nat ensures d in r.admitted <==> Served(r.conns, d) {
      assert d in s.admitted <==> Served(s.conns, d);
    }
    forall d: nat ensures d in r.freed <==> GaveBack(r.conns, d) {
      assert d in s.freed <==> GaveBack(s.conns, d);
    }
    assert c !in s.freed;
  }

  /** A slot that nobody waits for. */
  function Freed(s: State, c: nat, x: Conn): State
    requires c < |s.conns|
  {
    State(s.nActive - 1, s.wait, s.conns[c := x], s.admitted, s.freed + [c])
  }

  lemma FreedKeepsInv(s: State, max: nat, c: nat, x: Conn)
    requires Inv(s, max) && Holds(s, c) && s.wait == [] && Over(x)
    ensures Inv(Freed(s, c, x), max)
  {
    var r := Freed(s, c, x);
    assert Holders(r.conns) == Holders(s.conns) - {c};
    forall d: nat ensures d in r.freed <==> GaveBack(r.conns, d) {
      assert d in s.freed <==> GaveBack(s.conns, d);
    }
    forall d: nat ensures d in r.wait <==> Queued(r.conns, d) {
      assert d in s.wait <==> Queued(s.conns, d);
    }
    forall d: nat ensures d in r.admitted <==> Served(r.conns, d) {
      assert d in s.admitted <==> Served(s.conns, d);
    }
    assert c !in s.freed;
  }

  lemma {:induction false} RemoveAbsent(wait: seq<nat>, c: nat)
    requires c !in wait
    ensures Remove(wait, c) == wait
  {
    if wait != [] {
      RemoveAbsent(wait[1..], c);
    }
  }

  /** Losing a connection without a slot, waiting or not. */
  lemma DroppedKeepsInv(s: State, max: nat, c: nat)
    requires Inv(s, max) && c < |s.conns| && s.conns[c].open && !s.conns[c].active
    ensures Inv(Next(s, max, Lost(c)), max)
  {
    var r := Next(s, max, Lost(c));
    RemoveMembers(s.wait, c);
    assert Holders(r.conns) == Holders(s.conns);
    forall d: nat ensures d in r.wait <==> Queued(r.conns, d) {
      assert d in s.wait <==> Queued(s.conns, d);
    }
    assert r.wait != [] ==> r.wait[0] in r.wait;
    DroppedOrder(s, max, c);
    DroppedBalanced(s, max, c);
  }

  lemma DroppedOrder(s: State, max: nat, c: nat)
    requires InRange(s) && Ordered(s) && c < |s.conns| && s.conns[c].open && !s.conns[c].active
    ensures Ordered(Next(s, max, Lost(c))) && InRange(Next(s, max, Lost(c)))
  {
    var r := Next(s, max, Lost(c));
    RemoveMembers(s.wait, c);
    RemoveOrder(s.wait, c);
    forall j | 0 <= j < |r.wait| ensures r.wait[j] in s.wait {
      assert r.wait[j] in r.wait;
    }
  }

  lemma DroppedBalanced(s: State, max: nat, c: nat)
    requires Inv(s, max) && c < |s.conns| && s.conns[c].open && !s.conns[c].active
    ensures Balanced(Next(s, max, Lost(c)))
  {
    var r := Next(s, max, Lost(c));
    forall d: nat ensures d in r.freed <==> GaveBack(r.conns, d) {
      assert d in s.freed <==> GaveBack(s.conns, d);
    }
    forall d: nat ensures d in r.admitted <==> Served(r.conns, d) {
      assert d in s.admitted <==> Served(s.conns, d);
    }
  }

  lemma NextKeepsInv(s: State, max: nat, e: Event)
    requires Inv(s, max) && Legal(s, e)
    ensures Inv(Next(s, max, e), max)
  {
    if e.Connect? {
      BuildKeepsInv(s, max);
    } else {
      var c := e.c;
      var x := if e.Done? then s.conns[c].(active := false) else s.conns[c].(open := false);
      if !s.conns[c].active {
        if e.Done? {
          RemoveAbsent(s.wait, c);
          assert Next(s, max, e) == s;
        } else {
          DroppedKeepsInv(s, max, c);
        }
      } else if s.wait == [] {
        assert Next(s, max, e) == Freed(s, c, x);
        FreedKeepsInv(s, max, c, x);
      } else {
        PopWait(s);
        assert Next(s, max, e) == PassedOn(s, c, x);
        PassedOnCounted(s, max, c, x);
        PassedOnWaiting(s, max, c, x);
        PassedOnBalanced(s, max, c, x);
      }
    }
  }

  // ---------------------------------------------------------------- over runs

  /**
   In every run of arrivals, ends of uploads (also repeated ones) and losses: the slots in use are counted
   right and never exceed the limit, the wait list holds exactly the open connections without a slot so
   far, nobody waits while a slot is free, slots are given in order of arrival, and each is given back once.
   */
  lemma {:induction false} SlotsAreAccounted(max: nat, es: seq<Event>)
    requires IsRun(max, es)
    ensures Inv(Run(max, es), max)
    decreases |es|
  {
    if es != [] {
      SlotsAreAccounted(max, es[..|es| - 1]);
      NextKeepsInv(Run(max, es[..|es| - 1]), max, es[|es| - 1]);
    }
  }

  /** Of two connections the later one gets a slot first only if the earlier one was lost while waiting. */
  lemma FirstComeFirstServed(max: nat, es: seq<Event>, early: nat, late: nat)
    requires IsRun(max, es) && early < late < |Run(max, es).conns|
    requires Run(max, es).conns[late].served && !Run(max, es).conns[early].served
    ensures !Run(max, es).conns[early].open
  {
    SlotsAreAccounted(max, es);
    var s := Run(max, es);
    assert late in s.admitted;
    var i :| 0 <= i < |s.admitted| && s.admitted[i] == late;
    forall j | 0 <= j < |s.wait| ensures s.wait[j] != early {
      assert s.admitted[i] < s.wait[j];
    }
    assert early in s.wait <==> Queued(s.conns, early);
  }

  // ---------------------------------------------------------------- bounded waiting

  ghost function Position(wait: seq<nat>, c: nat): (k: nat)
    requires c in wait
    ensures k < |wait| && wait[k] == c
  {
    if wait[0] == c then 0 else
    assert wait == [wait[0]] + wait[1..];
    1 + Position(wait[1..], c)
  }

  lemma {:induction false} PositionAfterRemove(wait: seq<nat>, c: nat, d: nat)
    requires d in wait && d != c
    ensures d in Remove(wait, c) && Position(Remove(wait, c), d) <= Position(wait, d)
  {
    if wait[0] != d && wait[0] != c {
      assert wait == [wait[0]] + wait[1..];
      PositionAfterRemove(wait[1..], c, d);
      assert Remove(wait, c)[1..] == Remove(wait[1..], c);
    }
  }

  lemma {:induction false} PositionInLonger(wait: seq<nat>, more: seq<nat>, d: nat)
    requires d in wait
    ensures d in wait + more && Position(wait + more, d) == Position(wait, d)
  {
    if wait[0] != d {
      assert wait == [wait[0]] + wait[1..];
      assert (wait + more)[1..] == wait[1..] + more;
      PositionInLonger(wait[1..], more, d);
    }
  }

  /** Each slot given back brings everyone who still waits one place forward; nothing moves anyone back. */
  lemma NextAdvances(s: State, max: nat, e: Event, d: nat)
    requires Legal(s, e) && d in s.wait && d in Next(s, max, e).wait && Increasing(s.wait)
    ensures var n := Next(s, max, e);
            Position(n.wait, d) + |n.freed| <= Position(s.wait, d) + |s.freed|
  {
    if e.Connect? {
      PositionInLonger(s.wait, [|s.conns|], d);
    } else if !s.conns[e.c].active {
      if e.c == d {
        RemoveMembers(s.wait, d);
      } else {
        PositionAfterRemove(s.wait, e.c, d);
      }
    } else {
      assert s.wait == [s.wait[0]] + s.wait[1..];
      assert forall k | 1 <= k < |s.wait| :: s.wait[k] != s.wait[0];
    }
  }

  lemma NextWaiters(s: State, max: nat, e: Event, d: nat)
    requires Inv(s, max) && Legal(s, e) && d in Next(s, max, e).wait && d < |s.conns|
    ensures d in s.wait
  {
    if e.Connect? {
    } else if !s.conns[e.c].active {
      RemoveMembers(s.wait, e.c);
    } else if s.wait != [] {
      PopWait(s);
    }
  }

  /**
   However many connections arrive later: whoever is at place k of the wait list has left it by the time
   k + 1 more slots have been given back.
   */
  lemma {:induction false} WaitingIsBounded(max: nat, es: seq<Event>, more: seq<Event>, d: nat)
    requires IsRun(max, es) && IsRun(max, es + more)
    requires d in Run(max, es).wait && d in Run(max, es + more).wait
    ensures Position(Run(max, es + more).wait, d) + |Run(max, es + more).freed|
         <= Position(Run(max, es).wait, d) + |Run(max, es).freed|
    ensures |Run(max, es + more).freed| - |Run(max, es).freed| <= Position(Run(max, es).wait, d)
    decreases |more|
  {
    if more == [] {
      assert es + more == es;
    } else {
      var n := |more| - 1;
      assert (es + more)[..|es + more| - 1] == es + more[..n];
      var b := Run(max, es + more[..n]);
      SlotsAreAccounted(max, es);
      SlotsAreAccounted(max, es + more[..n]);
      ConnsGrow(max, es, more[..n]);
      NextWaiters(b, max, more[n], d);
      WaitingIsBounded(max, es, more[..n], d);
      NextAdvances(b, max, more[n], d);
    }
  }

  lemma {:induction false} ConnsGrow(max: nat, es: seq<Event>, more: seq<Event>)
    requires IsRun(max, es) && IsRun(max, es + more)
    ensures |Run(max, es).conns| <= |Run(max, es + more).conns|
    decreases |more|
  {
    if more == [] {
      assert es + more == es;
    } else {
      assert (es + more)[..|es + more| - 1] == es + more[..|more| - 1];
      ConnsGrow(max, es, more[..|more| - 1]);
    }
  }
}
