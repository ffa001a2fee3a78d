/**
 Many C clients against one server (client/castApp/src/casttcp.c:10-107, server/recceiver/recast.py:47-65,
 175-182, 372-395): a client starts its upload when the server's greeting arrives, the server greets a
 connection when it gives it a slot, and everything in between can be in flight or get lost.
 */
module Admission {
  import Slots

  /** A client is connected and waits for the greeting, uploads, or has sent its Done; or its socket is closed. */
  datatype Client = Greeted | Upload | Synchronized | Closed

  /** One connection: the client's end and what is in flight towards each side. */
  datatype Link = Link(client: Client, greeting: bool, done: bool)

  /** Link k belongs to the server's connection k. */
  datatype World = World(server: Slots.State, links: seq<Link>)

  datatype Event =
    | Connect
    | GreetingArrives(c: nat)   // the client enters its upload phase
    | UploadEnds(c: nat)        // the client sends Done
    | DoneArrives(c: nat)       // the server handles it
    | ClientCloses(c: nat)      // shutdown, error or timeout on the client's side
    | ServerLoses(c: nat)       // connectionLost on the server's side

  /** The server greets whoever it has just given a slot. */
  function Greet(links: seq<Link>, before: Slots.State, after: Slots.State): seq<Link> {
    seq(|links|, k requires 0 <= k < |links| =>
      if k < |after.conns| && after.conns[k].served && !(k < |before.conns| && before.conns[k].served)
      then links[k].(greeting := true) else links[k])
  }

  ghost predicate Legal(w: World, e: Event) {
    match e
    case Connect => true
    case GreetingArrives(c) => c < |w.links| && w.links[c].client.Greeted? && w.links[c].greeting
    case UploadEnds(c) => c < |w.links| && w.links[c].client.Upload?
    case DoneArrives(c) => c < |w.links| && w.links[c].done && Slots.Legal(w.server, Slots.Done(c))
    case ClientCloses(c) => c < |w.links| && !w.links[c].client.Closed?
    case ServerLoses(c) => c < |w.links| && Slots.Legal(w.server, Slots.Lost(c))
  }

  function Serve(w: World, max: nat, e: Slots.Event, links: seq<Link>): World
    requires Slots.Legal(w.server, e)
  {
    var after := Slots.Next(w.server, max, e);
    World(after, Greet(links, w.server, after))
  }

  function Next(w: World, max: nat, e: Event): World
    requires Legal(w, e)
  {
    match e
    case Connect => Serve(w, max, Slots.Connect, w.links + [Link(Greeted, false, false)])
    case GreetingArrives(c) => w.(links := w.links[c := w.links[c].(client := Upload, greeting := false)])
    case UploadEnds(c) => w.(links := w.links[c := w.links[c].(client := Synchronized, done := true)])
    case DoneArrives(c) => Serve(w, max, Slots.Done(c), w.links[c := w.links[c].(done := false)])
    case ClientCloses(c) => w.(links := w.links[c := w.links[c].(client := Closed)])
    case ServerLoses(c) => Serve(w, max, Slots.Lost(c), w.links)
  }

  const BEGIN := World(Slots.START, [])

  ghost predicate IsRun(max: nat, es: seq<Event>)
    decreases |es|, 0
  {
    es == [] || (IsRun(max, es[..|es| - 1]) && Legal(Run(max, es[..|es| - 1]), es[|es| - 1]))
  }

  /** The state after any interleaving of the events of all clients and the server. */
  ghost function Run(max: nat, es: seq<Event>): World
    requires IsRun(max, es)
    decreases |es|, 1
  {
    if es == [] then BEGIN else Next(Run(max, es[..|es| - 1]), max, es[|es| - 1])
  }

  // ---------------------------------------------------------------- the invariant

  /** What the two ends know of each other. */
  predicate Agrees(x: Slots.Conn, l: Link) {
    && (l.greeting || l.client.Upload? || l.client.Synchronized? || l.done ==> x.served)
    && (x.open && x.served && !x.active ==> l.client.Synchronized? || l.client.Closed?)
    && (x.open && x.served && !x.active ==> !l.greeting && !l.done)
    && (l.greeting ==> (l.client.Greeted? || l.client.Closed?) && !l.done)
    && (l.done ==> l.client.Synchronized? || l.client.Closed?)
    && (l.client.Greeted? && x.served ==> l.greeting)
    && (l.client.Synchronized? && x.open && x.active ==> l.done)
  }

  ghost predicate AllAgree(w: World) {
    && |w.links| == |w.server.conns|
    && forall c | 0 <= c < |w.links| :: Agrees(w.server.conns[c], w.links[c])
  }

  ghost predicate Inv(w: World, max: nat) {
    Slots.Inv(w.server, max) && AllAgree(w)
  }

  /** What a step does to the server's connections. */
  predicate Moved(x: Slots.Conn, y: Slots.Conn, done: bool, lost: bool) {
    if x.served then y == Slots.Conn(x.active && !done, x.open && !lost, true)
    else
      && y.open == (x.open && !lost)
      && (y.served ==> y.active && y.open && !done && !lost)
      && (!y.served ==> y.active == x.active)
  }

  lemma ServerMoves(s: Slots.State, max: nat, e: Slots.Event, k: nat)
    requires Slots.Inv(s, max) && Slots.Legal(s, e) && k < |s.conns|
    ensures |Slots.Next(s, max, e).conns| == |s.conns| + if e.Connect? then 1 else 0
    ensures Moved(s.conns[k], Slots.Next(s, max, e).conns[k], e == Slots.Done(k), e == Slots.Lost(k))
  {
    if !e.Connect? && s.wait != [] && s.conns[e.c].active {
      Slots.PopWait(s);
    }
  }

  lemma ServeAgrees(w: World, max: nat, e: Slots.Event, links: seq<Link>, k: nat)
    requires Slots.Inv(w.server, max) && Slots.Legal(w.server, e) && k < |w.server.conns| <= |links|
    requires var x := w.server.conns[k];
             && Agrees(x, links[k].(done := links[k].done || e == Slots.Done(k)))
             && (e == Slots.Done(k) ==> x.open && x.served && !links[k].done)
             && (e == Slots.Done(k) ==> links[k].client.Synchronized? || links[k].client.Closed?)
    ensures Agrees(Slots.Next(w.server, max, e).conns[k], Serve(w, max, e, links).links[k])
  {
    ServerMoves(w.server, max, e, k);
  }

  lemma ConnectAgrees(w: World, max: nat)
    requires Inv(w, max)
    ensures AllAgree(Next(w, max, Connect))
  {
    var links, n := w.links + [Link(Greeted, false, false)], Next(w, max, Connect);
    forall k | 0 <= k < |n.links| ensures Agrees(n.server.conns[k], n.links[k]) {
      if k < |w.links| {
        ServeAgrees(w, max, Slots.Connect, links, k);
      }
    }
  }

  lemma DoneAgrees(w: World, max: nat, c: nat)
    requires Inv(w, max) && Legal(w, DoneArrives(c))
    ensures AllAgree(Next(w, max, DoneArrives(c)))
  {
    var links, n := w.links[c := w.links[c].(done := false)], Next(w, max, DoneArrives(c));
    ServerMoves(w.server, max, Slots.Done(c), c);
    forall k | 0 <= k < |n.links| ensures Agrees(n.server.conns[k], n.links[k]) {
      ServeAgrees(w, max, Slots.Done(c), links, k);
    }
  }

  lemma LossAgrees(w: World, max: nat, c: nat)
    requires Inv(w, max) && Legal(w, ServerLoses(c))
    ensures AllAgree(Next(w, max, ServerLoses(c)))
  {
    var n := Next(w, max, ServerLoses(c));
    ServerMoves(w.server, max, Slots.Lost(c), c);
    forall k | 0 <= k < |n.links| ensures Agrees(n.server.conns[k], n.links[k]) {
      ServeAgrees(w, max, Slots.Lost(c), w.links, k);
    }
  }

  lemma NextKeepsInv(w: World, max: nat, e: Event)
    requires Inv(w, max) && Legal(w, e)
    ensures Inv(Next(w, max, e), max)
  {
    match e
    case Connect =>
      Slots.NextKeepsInv(w.server, max, Slots.Connect);
      ConnectAgrees(w, max);
    case DoneArrives(c) =>
      Slots.NextKeepsInv(w.server, max, Slots.Done(c));
      DoneAgrees(w, max, c);
    case ServerLoses(c) =>
      Slots.NextKeepsInv(w.server, max, Slots.Lost(c));
      LossAgrees(w, max, c);
    case GreetingArrives(c) => assert Agrees(w.server.conns[c], w.links[c]);
    case UploadEnds(c) => assert Agrees(w.server.conns[c], w.links[c]);
    case ClientCloses(c) => assert Agrees(w.server.conns[c], w.links[c]);
  }

  lemma {:induction false} RunKeepsInv(max: nat, es: seq<Event>)
    requires IsRun(max, es)
    ensures Inv(Run(max, es), max)
    decreases |es|
  {
    if es != [] {
      var n := |es| - 1;
      RunKeepsInv(max, es[..n]);
      NextKeepsInv(Run(max, es[..n]), max, es[n]);
    }
  }

  // ---------------------------------------------------------------- what it gives

  /** Clients that upload over a connection the server has not lost. */
  ghost function Uploading(w: World): set<nat> {
    set c: nat | c < |w.links| && c < |w.server.conns| && w.links[c].client.Upload? && w.server.conns[c].open
  }

  /** In every interleaving, whoever uploads holds a slot, so never more than `max` upload at a time. */
  lemma UploadersHoldSlots(max: nat, es: seq<Event>)
    requires IsRun(max, es)
    ensures var w := Run(max, es);
            Uploading(w) <= Slots.Holders(w.server.conns) && |Uploading(w)| <= w.server.nActive <= max
  {
    RunKeepsInv(max, es);
    var w := Run(max, es);
    forall c | c in Uploading(w) ensures c in Slots.Holders(w.server.conns) {
      assert Agrees(w.server.conns[c], w.links[c]);
    }
    SubsetSize(Uploading(w), Slots.Holders(w.server.conns));
  }

  lemma SubsetSize(a: set<nat>, b: set<nat>)
    requires a <= b
    ensures |a| <= |b|
  {
    assert b == a + (b - a);
  }

  /**
   No slot is held for nothing: behind each there is a greeting on its way to a waiting client, an upload,
   a Done on its way to the server, or a client that has closed its end.
   */
  lemma SlotsAreInUse(max: nat, es: seq<Event>, c: nat)
    requires IsRun(max, es) && c in Slots.Holders(Run(max, es).server.conns)
    ensures var w := Run(max, es);
            && c < |w.links|
            && match w.links[c].client
               case Greeted => w.links[c].greeting
               case Upload => true
               case Synchronized => w.links[c].done
               case Closed => true
  {
    RunKeepsInv(max, es);
    var w := Run(max, es);
    assert w.server.conns[c].served;
    assert Agrees(w.server.conns[c], w.links[c]);
  }
}
