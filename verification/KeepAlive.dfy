/**
 The ping timer of a connection that has its slot (server/recceiver/recast.py:47-81, 86-87, 122-135,
 184-185), on values. Phase 1: the next expiry sends a ping; phase 2: a ping is out, and an expiry closes
 the connection. Every message header restarts the timer.
 */
module KeepAlive {
  import opened Wrappers

  /**
   `timer`: when it expires. `nonce`: of the latest ping. `closing`: the server has asked for the connection
   to be closed. `pings` and `answers` count pings sent and pings answered; `pinged` is when the latest ping
   was sent and `heard` when the latest header arrived, or the connection got its slot.
   */
  datatype State = State(phase: int, timer: Option<int>, nonce: Option<nat>, closing: bool,
                         pings: nat, answers: nat, pinged: int, heard: int)

  datatype Event =
    | Header(now: int)             // a message header, of any kind
    | Answer(now: int, nonce: nat) // header and body of a Pong
    | Finish(now: int, nonce: nat) // header and body of a Done; `nonce` is drawn if a ping is sent
    | Expire(now: int, nonce: nat) // the timer goes off

  function Promoted(timeout: int, now: int): State {
    State(1, Some(now + timeout), None, false, 0, 0, now, now)
  }

  function Restart(s: State, timeout: int, now: int): State {
    s.(timer := Some(now + timeout))
  }

  function Hear(s: State, timeout: int, now: int): State {
    Restart(s, timeout, now).(heard := now)
  }

  /** writePing */
  function WritePing(s: State, timeout: int, now: int, nonce: nat): State {
    if s.phase == 2 then s.(closing := true)
    else Restart(s, timeout, now).(phase := 2, nonce := Some(nonce), pings := s.pings + 1, pinged := now)
  }

  function RecvPong(s: State, nonce: nat): State {
    if s.nonce != Some(nonce) then s.(closing := true)
    else s.(phase := 1, answers := if s.phase == 2 then s.answers + 1 else s.answers)
  }

  function Next(s: State, timeout: int, e: Event): State {
    match e
    case Header(now) => Hear(s, timeout, now)
    case Answer(now, nonce) => RecvPong(Hear(s, timeout, now), nonce)
    case Finish(now, nonce) =>
      var h := Hear(s, timeout, now);
      if h.phase == 1 then WritePing(h, timeout, now, nonce) else h
    case Expire(now, nonce) => WritePing(s.(timer := None), timeout, now, nonce)
  }

  /** Messages are handled and timers fire until the connection is being closed; a timer not before its time. */
  ghost predicate Legal(s: State, e: Event) {
    && !s.closing && s.heard <= e.now && s.pinged <= e.now
    && (e.Expire? ==> s.timer.Some? && s.timer.value <= e.now)
  }

  ghost predicate IsRun(timeout: int, start: int, es: seq<Event>) {
    forall k | 0 <= k < |es| :: Legal(Run(timeout, start, es[..k]), es[k])
  }

  function Run(timeout: int, start: int, es: seq<Event>): State {
    if es == [] then Promoted(timeout, start) else Next(Run(timeout, start, es[..|es| - 1]), timeout, es[|es| - 1])
  }

  // ---------------------------------------------------------------- one timer, one ping

  function Later(a: int, b: int): int {
    if a < b then b else a
  }

  /** One timer, set `timeout` after the latest header or ping; at most one ping without its answer. */
  ghost predicate Inv(s: State, timeout: int) {
    && s.phase in {1, 2}
    && s.pings - s.answers == s.phase - 1
    && (s.nonce.None? <==> s.pings == 0)
    && (!s.closing ==> s.timer.Some?)
    && (s.timer.Some? ==> s.timer.value == Later(s.heard, s.pinged) + timeout)
  }

  lemma NextKeepsInv(s: State, timeout: int, e: Event)
    requires Inv(s, timeout) && Legal(s, e)
    ensures Inv(Next(s, timeout, e), timeout)
  {
  }

  lemma RunPrefix(timeout: int, start: int, es: seq<Event>)
    requires es != [] && IsRun(timeout, start, es)
    ensures IsRun(timeout, start, es[..|es| - 1])
    ensures Legal(Run(timeout, start, es[..|es| - 1]), es[|es| - 1])
  {
    var b := es[..|es| - 1];
    forall k | 0 <= k < |b| ensures b[..k] == es[..k] && b[k] == es[k] {
    }
  }

  /** In every run a connection that is not being closed has one timer and at most one ping is unanswered. */
  lemma {:induction false} OnePingAtATime(timeout: int, start: int, es: seq<Event>)
    requires IsRun(timeout, start, es)
    ensures Inv(Run(timeout, start, es), timeout)
  {
    if es != [] {
      RunPrefix(timeout, start, es);
      OnePingAtATime(timeout, start, es[..|es| - 1]);
      NextKeepsInv(Run(timeout, start, es[..|es| - 1]), timeout, es[|es| - 1]);
    }
  }

  // ---------------------------------------------------------------- the pings, told by the events alone

  /** A Done or an expiry asks for a ping. */
  predicate Asks(e: Event) {
    e.Finish? || e.Expire?
  }

  /** A ping is out: since a ping was asked for nothing has been answered. */
  ghost predicate PingOut(es: seq<Event>) {
    exists j :: 0 <= j < |es| && Asks(es[j]) && forall q | j < q < |es| :: !es[q].Answer?
  }

  /** Event j sent the latest ping; `es[j].nonce` was drawn for it. */
  ghost predicate PingAt(es: seq<Event>, j: nat) {
    && j < |es| && Asks(es[j]) && !PingOut(es[..j])
    && forall q | j < q < |es| && Asks(es[q]) :: PingOut(es[..q])
  }

  /** `nonce` is the one the latest ping was sent with. */
  ghost predicate Echoes(es: seq<Event>, nonce: nat) {
    exists j: nat :: PingAt(es, j) && es[j].nonce == nonce
  }

  lemma PingOutStep(es: seq<Event>)
    requires es != []
    ensures var b, e := es[..|es| - 1], es[|es| - 1];
            PingOut(es) <==> Asks(e) || (PingOut(b) && !e.Answer?)
  {
    var n := |es| - 1;
    if !Asks(es[n]) && PingOut(es[..n]) && !es[n].Answer? {
      var j :| 0 <= j < n && Asks(es[..n][j]) && forall q | j < q < n :: !es[..n][q].Answer?;
      assert Asks(es[j]);
      forall q | j < q < |es| ensures !es[q].Answer? {
        assert q < n ==> !es[..n][q].Answer?;
      }
    }
    if PingOut(es) && !Asks(es[n]) {
      var j :| 0 <= j < |es| && Asks(es[j]) && forall q | j < q < |es| :: !es[q].Answer?;
      assert Asks(es[..n][j]);
    }
  }

  lemma PingAtStep(es: seq<Event>, j: nat)
    requires es != []
    ensures var n := |es| - 1;
            PingAt(es, j) <==> if Asks(es[n]) && !PingOut(es[..n]) then j == n else PingAt(es[..n], j)
  {
    hide PingOut, Asks;
    var n := |es| - 1;
    if j < n {
      assert es[..n][..j] == es[..j] && es[..n][j] == es[j];
      forall q | j < q < n ensures es[..n][..q] == es[..q] && es[..n][q] == es[q] {
      }
    }
  }

  /**
   The machine agrees with the events: it waits for an answer exactly while a ping is out, and what it remembers is
   the nonce and the time of the latest ping.
   */
  ghost predicate Remembers(s: State, es: seq<Event>) {
    && (s.phase == 2 <==> PingOut(es))
    && (s.nonce.Some? <==> exists j: nat :: PingAt(es, j))
    && forall j: nat | PingAt(es, j) :: s.nonce == Some(es[j].nonce) && s.pinged == es[j].now
  }

  lemma {:induction false} LatestPingIsRemembered(timeout: int, start: int, es: seq<Event>)
    requires IsRun(timeout, start, es) && !Run(timeout, start, es).closing
    ensures Remembers(Run(timeout, start, es), es)
  {
    if es != [] {
      RunPrefix(timeout, start, es);
      OnePingAtATime(timeout, start, es[..|es| - 1]);
      LatestPingIsRemembered(timeout, start, es[..|es| - 1]);
      RemembersStep(Run(timeout, start, es[..|es| - 1]), timeout, es);
    }
  }

  lemma RemembersStep(s: State, timeout: int, es: seq<Event>)
    requires es != [] && Inv(s, timeout) && Remembers(s, es[..|es| - 1])
    requires Legal(s, es[|es| - 1]) && !Next(s, timeout, es[|es| - 1]).closing
    ensures Remembers(Next(s, timeout, es[|es| - 1]), es)
  {
    hide PingOut, PingAt;
    PingOutStep(es);
    forall j: nat
      ensures PingAt(es, j) <==>
                if Asks(es[|es| - 1]) && !PingOut(es[..|es| - 1]) then j == |es| - 1 else PingAt(es[..|es| - 1], j)
      ensures PingAt(es[..|es| - 1], j) ==> j < |es| - 1
    {
      PingAtStep(es, j);
      PingAtBefore(es[..|es| - 1], j);
    }
    var n := |es| - 1;
    var r := Next(s, timeout, es[n]);
    assert r.phase == 2 <==> PingOut(es);
    if Asks(es[n]) && !PingOut(es[..n]) {
      assert PingAt(es, n);
    } else if s.nonce.Some? {
      var j: nat :| PingAt(es[..n], j);
      assert PingAt(es, j);
    }
  }

  lemma PingAtBefore(es: seq<Event>, j: nat)
    ensures PingAt(es, j) ==> j < |es|
  {
  }

  // ---------------------------------------------------------------- who is closed

  /** `heard` is the time of the latest message, or of the start. */
  ghost predicate IsLatest(start: int, es: seq<Event>, heard: int) {
    && start <= heard && (forall k | 0 <= k < |es| && !es[k].Expire? :: es[k].now <= heard)
    && (heard == start || exists k :: 0 <= k < |es| && !es[k].Expire? && es[k].now == heard)
  }

  lemma IsLatestStep(start: int, es: seq<Event>, before: int, after: int)
    requires es != [] && IsLatest(start, es[..|es| - 1], before)
    requires if es[|es| - 1].Expire? then after == before else before <= es[|es| - 1].now == after
    ensures IsLatest(start, es, after)
  {
    var n := |es| - 1;
    if es[n].Expire? && before != start {
      var k :| 0 <= k < n && !es[..n][k].Expire? && es[..n][k].now == before;
      assert !es[k].Expire? && es[k].now == before;
    }
    forall k | 0 <= k < n && !es[k].Expire? ensures es[k].now <= before {
      assert !es[..n][k].Expire?;
    }
  }

  lemma {:induction false} HeardIsLatest(timeout: int, start: int, es: seq<Event>)
    requires IsRun(timeout, start, es)
    ensures IsLatest(start, es, Run(timeout, start, es).heard)
  {
    if es != [] {
      hide IsLatest;
      var b := es[..|es| - 1];
      RunPrefix(timeout, start, es);
      HeardIsLatest(timeout, start, b);
      IsLatestStep(start, es, Run(timeout, start, b).heard, Run(timeout, start, es).heard);
    } else {
      assert Run(timeout, start, es).heard == start;
    }
  }

  /**
   An expiry closes the connection exactly when a ping is out, and then neither the latest ping was sent nor any
   message handled within the last `timeout`.
   */
  lemma ClosedOnlyAfterSilence(timeout: int, start: int, es: seq<Event>)
    requires es != [] && IsRun(timeout, start, es) && es[|es| - 1].Expire?
    ensures var b, now := es[..|es| - 1], es[|es| - 1].now;
            && (Run(timeout, start, es).closing <==> PingOut(b))
            && (forall j: nat | PingAt(b, j) :: b[j].now + timeout <= now)
            && forall k | 0 <= k < |b| && !b[k].Expire? :: b[k].now + timeout <= now
  {
    hide PingOut, PingAt;
    var b := es[..|es| - 1];
    RunPrefix(timeout, start, es);
    OnePingAtATime(timeout, start, b);
    LatestPingIsRemembered(timeout, start, b);
    HeardIsLatest(timeout, start, b);
    forall j: nat | PingAt(b, j) ensures j < |b| {
      PingAtBefore(b, j);
    }
  }

  /**
   A connection is closed by this machine exactly on an answer without the nonce of the latest ping, or on an
   expiry with a ping out.
   */
  lemma ClosedIff(timeout: int, start: int, es: seq<Event>)
    requires es != [] && IsRun(timeout, start, es)
    ensures var b, e := es[..|es| - 1], es[|es| - 1];
            Run(timeout, start, es).closing <==>
              (e.Answer? && !Echoes(b, e.nonce)) || (e.Expire? && PingOut(b))
  {
    hide PingOut, PingAt;
    var b := es[..|es| - 1];
    RunPrefix(timeout, start, es);
    OnePingAtATime(timeout, start, b);
    LatestPingIsRemembered(timeout, start, b);
  }

  /** The client answers a ping with its nonce before `timeout` has passed, and sends no other Pong. */
  ghost predicate Prompt(timeout: int, es: seq<Event>) {
    forall k | 0 <= k < |es| ::
      && (es[k].Answer? ==> Echoes(es[..k], es[k].nonce))
      && (PingOut(es[..k]) ==> forall j: nat | PingAt(es[..k], j) :: es[k].now < es[j].now + timeout)
  }

  /** Such a client is never closed. */
  lemma {:induction false} PromptClientsStay(timeout: int, start: int, es: seq<Event>)
    requires IsRun(timeout, start, es) && Prompt(timeout, es)
    ensures !Run(timeout, start, es).closing
  {
    if es != [] {
      var b := es[..|es| - 1];
      RunPrefix(timeout, start, es);
      PromptPrefix(timeout, es);
      PromptClientsStay(timeout, start, b);
      PromptStep(timeout, start, es);
    }
  }

  lemma PromptPrefix(timeout: int, es: seq<Event>)
    requires es != [] && Prompt(timeout, es)
    ensures Prompt(timeout, es[..|es| - 1])
  {
    hide PingOut, PingAt, Echoes;
    var b := es[..|es| - 1];
    forall k | 0 <= k < |b| ensures b[..k] == es[..k] && b[k] == es[k] {
    }
    forall k, j: nat | 0 <= k < |b| && PingAt(b[..k], j) ensures j < k && b[j] == es[j] {
      PingAtBefore(b[..k], j);
    }
  }

  lemma PromptStep(timeout: int, start: int, es: seq<Event>)
    requires es != [] && IsRun(timeout, start, es) && Prompt(timeout, es)
    ensures !Run(timeout, start, es).closing
  {
    var n := |es| - 1;
    ClosedIff(timeout, start, es);
    if es[n].Expire? && PingOut(es[..n]) {
      var j := LatestPing(timeout, start, es);
      ClosedOnlyAfterSilence(timeout, start, es);
    }
  }

  lemma LatestPing(timeout: int, start: int, es: seq<Event>) returns (j: nat)
    requires es != [] && IsRun(timeout, start, es) && PingOut(es[..|es| - 1])
    ensures PingAt(es[..|es| - 1], j) && j < |es| - 1
  {
    RunPrefix(timeout, start, es);
    var b := es[..|es| - 1];
    LatestPingIsRemembered(timeout, start, b);
    OnePingAtATime(timeout, start, b);
    j :| PingAt(b, j);
  }

  /** Every event, an expiry included, comes within `timeout` of the latest header, and no ping is answered. */
  ghost predicate Talkative(timeout: int, start: int, es: seq<Event>) {
    forall k | 0 <= k < |es| :: !es[k].Answer? && es[k].now < Run(timeout, start, es[..k]).heard + timeout
  }

  ghost predicate AnyDone(es: seq<Event>) {
    exists e | e in es :: e.Finish?
  }

  lemma AnyDoneStep(es: seq<Event>)
    requires es != []
    ensures AnyDone(es) <==> AnyDone(es[..|es| - 1]) || es[|es| - 1].Finish?
  {
    assert es == es[..|es| - 1] + [es[|es| - 1]];
  }

  /**
   The other way round it does not hold: a client that lets no `timeout` pass without sending something is
   never closed although it leaves a ping unanswered, because every header restarts the timer.
   */
  lemma {:induction false} TalkersStay(timeout: int, start: int, es: seq<Event>)
    requires IsRun(timeout, start, es) && Talkative(timeout, start, es)
    ensures var s := Run(timeout, start, es);
            && !s.closing && s.answers == 0
            && (s.pings == 1 <==> AnyDone(es))
  {
    if es != [] {
      hide AnyDone;
      var b := es[..|es| - 1];
      RunPrefix(timeout, start, es);
      OnePingAtATime(timeout, start, b);
      forall k | 0 <= k < |b| ensures b[..k] == es[..k] && b[k] == es[k] {
      }
      TalkersStay(timeout, start, b);
      AnyDoneStep(es);
    }
  }

  // ---------------------------------------------------------------- silence

  /** Nothing arrives any more; the timer goes off whenever it is due, up to `until`. */
  function Silence(s: State, timeout: int, until: int, nonce: nat): State
    decreases if s.closing then 0 else if s.phase == 2 then 1 else 2
  {
    if s.closing || s.timer.None? || until < s.timer.value then s
    else Silence(Next(s, timeout, Expire(s.timer.value, nonce)), timeout, until, nonce)
  }

  lemma SilenceWithPingOut(s: State, timeout: int, until: int, nonce: nat)
    requires s.phase == 2 && !s.closing && s.timer.Some?
    ensures Silence(s, timeout, until, nonce).closing <==> s.timer.value <= until
  {
    if s.timer.value <= until {
      assert Next(s, timeout, Expire(s.timer.value, nonce)).closing;
    }
  }

  /**
   After the last handled message a silent client is closed at twice the timeout, or at once the timeout if
   a ping was already out, and not before.
   */
  lemma SilentClientsAreClosed(timeout: int, start: int, es: seq<Event>, until: int, nonce: nat)
    requires IsRun(timeout, start, es) && timeout > 0
    requires var s := Run(timeout, start, es); !s.closing && s.pinged <= s.heard
    ensures var s := Run(timeout, start, es);
            Silence(s, timeout, until, nonce).closing <==>
              s.heard + (if PingOut(es) then timeout else 2 * timeout) <= until
  {
    hide PingOut, PingAt;
    OnePingAtATime(timeout, start, es);
    LatestPingIsRemembered(timeout, start, es);
    var s := Run(timeout, start, es);
    if s.phase == 2 {
      SilenceWithPingOut(s, timeout, until, nonce);
    } else if s.timer.value <= until {
      SilenceWithPingOut(Next(s, timeout, Expire(s.timer.value, nonce)), timeout, until, nonce);
    }
  }
}
