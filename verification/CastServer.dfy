/**
 CastFactory and CastReceiver as objects (server/recceiver/recast.py:21-135, 175-187, 359-395), proved
 against the slots and the ping timer on values.
 */
module CastServer {
  import opened Wrappers
  import opened Lists
  import Slots
  import KeepAlive

  class CastReceiver {
    const timeout: int
    var active: bool
    var paused: bool
    var greeted: bool
    var phase: int
    var pingTimer: Option<int>
    var nonce: Option<nat>
    var closing: bool

    ghost const id: nat
    ghost var open: bool
    ghost var served: bool
    ghost var pings: nat
    ghost var answers: nat
    ghost var pinged: int
    ghost var heard: int

    constructor (timeout: int, active: bool, ghost id: nat)
      ensures this.active == active && this.timeout == timeout && this.id == id
      ensures open && served == active && !closing && !greeted && !paused
      ensures pings == 0 && answers == 0 && nonce == None
    {
      this.timeout, this.active, this.id := timeout, active, id;
      paused, greeted, phase, pingTimer, nonce, closing := false, false, 1, None, None, false;
      open, served, pings, answers, pinged, heard := true, active, 0, 0, 0, 0;
    }

    ghost function Conn(): Slots.Conn
      reads this
    {
      Slots.Conn(active, open, served)
    }

    ghost function Pinging(): KeepAlive.State
      reads this
    {
      KeepAlive.State(phase, pingTimer, nonce, closing, pings, answers, pinged, heard)
    }

    /** With a slot the server greets the client; without one it stops reading. */
    method ConnectionMade(now: int)
      requires pings == 0 && answers == 0 && nonce.None? && !closing
      modifies this
      ensures Conn() == old(Conn())
      ensures active ==> greeted && paused == old(paused) && Pinging() == KeepAlive.Promoted(timeout, now)
      ensures !active ==> paused && greeted == old(greeted) && Pinging() == old(Pinging())
    {
      if active {
        phase := 1;
        pingTimer := Some(now + timeout);
        greeted := true;
        pinged, heard := now, now;
      } else {
        paused := true;
      }
    }

    /** A slot has become free for this connection. */
    method Admit(now: int)
      requires pings == 0 && answers == 0 && nonce.None? && !closing
      modifies this
      ensures Conn() == old(Conn()).(active := true, served := true)
      ensures greeted && !paused && Pinging() == KeepAlive.Promoted(timeout, now)
    {
      active, served := true, true;
      paused := false;
      ConnectionMade(now);
    }

    method RestartPingTimer(now: int)
      modifies this`pingTimer
      ensures Pinging() == KeepAlive.Restart(old(Pinging()), timeout, now)
    {
      pingTimer := Some(now + timeout);
    }

    method WritePing(now: int, draw: nat)
      modifies this
      ensures Conn() == old(Conn()) && paused == old(paused) && greeted == old(greeted)
      ensures Pinging() == KeepAlive.WritePing(old(Pinging()), timeout, now, draw)
    {
      if phase == 2 {
        closing := true;
      } else {
        RestartPingTimer(now);
        phase := 2;
        nonce := Some(draw);
        pings, pinged := pings + 1, now;
      }
    }

    /** The timer goes off. */
    method TimerExpires(now: int, draw: nat)
      modifies this
      ensures Conn() == old(Conn()) && paused == old(paused) && greeted == old(greeted)
      ensures Pinging() == KeepAlive.Next(old(Pinging()), timeout, KeepAlive.Expire(now, draw))
    {
      pingTimer := None;
      WritePing(now, draw);
    }

    method RecvHeader(now: int)
      modifies this
      ensures Conn() == old(Conn()) && paused == old(paused) && greeted == old(greeted)
      ensures Pinging() == KeepAlive.Next(old(Pinging()), timeout, KeepAlive.Header(now))
    {
      RestartPingTimer(now);
      heard := now;
    }

    /** The body of a Pong, after its header. */
    method RecvPong(answer: nat)
      modifies this
      ensures Conn() == old(Conn()) && paused == old(paused) && greeted == old(greeted)
      ensures Pinging() == KeepAlive.RecvPong(old(Pinging()), answer)
    {
      if nonce != Some(answer) {
        closing := true;
      } else {
        if phase == 2 {
          answers := answers + 1;
        }
        phase := 1;
      }
    }

    /** A Pong: its header, then its body. */
    method PongArrives(now: int, answer: nat)
      modifies this
      ensures Conn() == old(Conn()) && paused == old(paused) && greeted == old(greeted)
      ensures Pinging() == KeepAlive.Next(old(Pinging()), timeout, KeepAlive.Answer(now, answer))
    {
      RecvHeader(now);
      RecvPong(answer);
    }
  }

  ghost function Ids(ps: seq<CastReceiver>): seq<nat> {
    seq(|ps|, k requires 0 <= k < |ps| => ps[k].id)
  }

  ghost function Conns(ps: seq<CastReceiver>): seq<Slots.Conn>
    reads ps
  {
    seq(|ps|, k requires 0 <= k < |ps| reads ps => ps[k].Conn())
  }

  lemma {:induction false} RemoveAt(ids: seq<nat>, i: nat)
    requires i < |ids| && forall k | 0 <= k < i :: ids[k] != ids[i]
    ensures Slots.Remove(ids, ids[i]) == ids[..i] + ids[i + 1..]
  {
    if i > 0 {
      RemoveAt(ids[1..], i - 1);
      assert [ids[0]] + (ids[1..][..i - 1] + ids[1..][i..]) == ids[..i] + ids[i + 1..];
    }
  }

  class CastFactory {
    const maxActive: nat
    const timeout: int
    var nActive: int
    var wait: seq<CastReceiver>

    ghost var conns: seq<CastReceiver>
    ghost var admitted: seq<nat>
    ghost var freed: seq<nat>

    constructor (maxActive: nat, timeout: int)
      ensures Valid() && View() == Slots.START && this.maxActive == maxActive && conns == []
    {
      this.maxActive, this.timeout := maxActive, timeout;
      nActive, wait, conns, admitted, freed := 0, [], [], [], [];
    }

    ghost predicate Valid()
      reads this
    {
      && (forall k | 0 <= k < |conns| :: conns[k].id == k && conns[k].timeout == timeout)
      && (forall p | p in wait :: p.id < |conns| && conns[p.id] == p)
      && NoDups(wait)
    }

    ghost function View(): Slots.State
      reads this, conns
    {
      Slots.State(nActive, Ids(wait), Conns(conns), admitted, freed)
    }

    /** What waits now was waiting before, and nothing has happened to it. */
    twostate predicate WaitersRest()
      reads this, wait
    {
      forall p | p in wait ::
        && p in old(wait)
        && p.paused == old(p.paused) && p.greeted == old(p.greeted) && p.Pinging() == old(p.Pinging())
    }

    /** Waiting connections have not pinged anyone yet. */
    ghost predicate Quiet()
      reads this, wait
    {
      forall p | p in wait :: p.pings == 0 && p.answers == 0 && p.nonce.None? && !p.closing
    }

    method BuildProtocol() returns (p: CastReceiver)
      requires Valid() && Quiet()
      modifies this
      ensures Valid() && Quiet() && fresh(p) && conns == old(conns) + [p]
      ensures View() == Slots.Build(old(View()), maxActive)
      ensures p.active == p.served && p.active == (old(nActive) < maxActive)
    {
      var active := nActive < maxActive;
      p := new CastReceiver(timeout, active, |conns|);
      if active {
        nActive := nActive + 1;
        admitted := admitted + [|conns|];
      } else {
        wait := wait + [p];
      }
      conns := conns + [p];
    }

    /** proto in self.Wait, then self.Wait.remove(proto) */
    method StopWaiting(proto: CastReceiver)
      requires Valid() && proto.id < |conns| && conns[proto.id] == proto
      modifies this`wait
      ensures Valid() && Ids(wait) == Slots.Remove(old(Ids(wait)), proto.id) && proto !in wait
      ensures forall p | p in wait :: p in old(wait)
    {
      for i := 0 to |wait|
        invariant wait == old(wait)
        invariant forall k | 0 <= k < i :: wait[k] != proto
      {
        if wait[i] == proto {
          ghost var ids := Ids(wait);
          assert forall k | 0 <= k < i :: wait[k] in wait && ids[k] != proto.id;
          RemoveAt(ids, i);
          wait := wait[..i] + wait[i + 1..];
          assert Ids(wait) == ids[..i] + ids[i + 1..];
          return;
        }
      }
      assert forall k | 0 <= k < |wait| :: wait[k] in wait && Ids(wait)[k] != proto.id;
      Slots.RemoveAbsent(Ids(wait), proto.id);
    }

    /** Called with the connection's own `active`. */
    method IsDone(proto: CastReceiver, now: int)
      requires Valid() && Quiet() && proto.id < |conns| && conns[proto.id] == proto
      modifies this, wait
      ensures Valid() && Quiet() && conns == old(conns)
      ensures View() == Slots.Release(old(View()), proto.id)
      ensures WaitersRest() && (!old(proto.active) ==> proto !in wait)
      ensures old(proto.active) && old(wait) != [] ==>
                var w := old(wait)[0]; w.greeted && !w.paused && w.Pinging() == KeepAlive.Promoted(timeout, now)
    {
      hide Slots.Remove, KeepAlive.Promoted;
      if !proto.active {
        StopWaiting(proto);
      } else if |wait| > 0 {
        var waiting := wait[0];
        wait := wait[1..];
        freed, admitted := freed + [proto.id], admitted + [waiting.id];
        waiting.Admit(now);
      } else {
        nActive := nActive - 1;
        freed := freed + [proto.id];
      }
    }

    lemma ServedDoesNotWait(proto: CastReceiver)
      requires Valid() && Slots.Inv(View(), maxActive)
      requires proto.id < |conns| && conns[proto.id] == proto
      ensures proto.served || proto.active ==> proto !in wait
    {
      assert proto.id in View().wait <==> Slots.Queued(View().conns, proto.id);
      assert View().conns[proto.id] == proto.Conn();
      forall k | 0 <= k < |wait| && wait[k] == proto ensures !proto.served && !proto.active {
        assert View().wait[k] == wait[k].id;
      }
    }

    lemma DoneIs(s: Slots.State, max: nat, c: nat)
      requires Slots.Legal(s, Slots.Done(c))
      ensures var r := Slots.Release(s, c);
              && |r.conns| == |s.conns|
              && Slots.Next(s, max, Slots.Done(c)) == r.(conns := r.conns[c := r.conns[c].(active := false)])
    {
    }

    /** recvDone of `proto`, whose header has restarted its timer. */
    method RecvDone(proto: CastReceiver, now: int, draw: nat)
      requires Valid() && Quiet() && Slots.Inv(View(), maxActive)
      requires proto.id < |conns| && conns[proto.id] == proto && proto.open && proto.served
      modifies this, wait, proto
      ensures Valid() && Quiet() && conns == old(conns)
      ensures View() == Slots.Next(old(View()), maxActive, Slots.Done(proto.id))
      ensures WaitersRest()
      ensures proto.Pinging() ==
              if old(proto.phase) == 1 then KeepAlive.WritePing(old(proto.Pinging()), timeout, now, draw)
              else old(proto.Pinging())
    {
      hide Slots.Inv, KeepAlive.WritePing, KeepAlive.Promoted, Slots.Release, Slots.Next, Quiet;
      ServedDoesNotWait(proto);
      IsDone(proto, now);
      ghost var r := View();
      assert r == Slots.Release(old(View()), proto.id);
      proto.active := false;
      assert View() == r.(conns := r.conns[proto.id := r.conns[proto.id].(active := false)]);
      DoneIs(old(View()), maxActive, proto.id);
      if proto.phase == 1 {
        proto.WritePing(now, draw);
      }
    }

    /** A Done: its header, then its body. */
    method DoneArrives(proto: CastReceiver, now: int, draw: nat)
      requires Valid() && Quiet() && Slots.Inv(View(), maxActive)
      requires proto.id < |conns| && conns[proto.id] == proto && proto.open && proto.served
      modifies this, wait, proto
      ensures Valid() && Quiet() && conns == old(conns)
      ensures View() == Slots.Next(old(View()), maxActive, Slots.Done(proto.id))
      ensures WaitersRest()
      ensures proto.Pinging() == KeepAlive.Next(old(proto.Pinging()), timeout, KeepAlive.Finish(now, draw))
    {
      ServedDoesNotWait(proto);
      hide Slots.Next, Slots.Inv, KeepAlive.WritePing;
      proto.RecvHeader(now);
      assert View() == old(View());
      RecvDone(proto, now, draw);
    }

    method ConnectionLost(proto: CastReceiver, now: int)
      requires Valid() && Quiet() && Slots.Inv(View(), maxActive)
      requires proto.id < |conns| && conns[proto.id] == proto && proto.open
      modifies this, wait, proto
      ensures Valid() && Quiet() && conns == old(conns)
      ensures View() == Slots.Next(old(View()), maxActive, Slots.Lost(proto.id))
      ensures WaitersRest()
      ensures proto.pingTimer == None
    {
      hide Slots.Remove, Slots.Inv, Quiet, KeepAlive.Promoted;
      ServedDoesNotWait(proto);
      IsDone(proto, now);
      proto.pingTimer := None;
      proto.open := false;
    }
  }
}
