/**
 How commits reach the SQL consumer in the running server (server/recceiver/application.py:94-95,
 processors.py:119-138, recast.py:294-306): sessions hand transactions to the controller, one at a time each;
 the consumer executes them in its own time; a failure takes it off the list when it is reported back.
 */
module Recording {
  import opened Wrappers
  import opened Bytes
  import opened Transactions
  import opened DbStore
  import opened DbServers

  /** A transaction the consumer was given: its place in the order of execution, and whether its end was reported. */
  datatype Job = Job(src: nat, ep: Endpoint, t: Tx, at: Option<nat>, reported: bool)

  /** What a session handed over, and whether the consumer was given it. */
  datatype Hand = Hand(src: nat, t: Tx, given: bool)

  /** `enrolled`: the consumer is on the list of processors. `log`: what it executed, in order. */
  datatype World = World(enrolled: bool, hands: seq<Hand>, jobs: seq<Job>, log: seq<DbServers.Event>)

  datatype Event =
    | HandOver(src: nat, ep: Endpoint, t: Tx)
    | Execute(k: nat, row: nat)
    | Report(k: nat)

  const START := World(true, [], [], [])

  ghost predicate WentThrough(key: int, log: seq<DbServers.Event>, j: nat)
    requires j < |log|
  {
    Step(DbServers.Run(key, log[..j]), key, log[j]).ok
  }

  ghost predicate Failed(key: int, w: World, k: nat)
    requires k < |w.jobs|
  {
    w.jobs[k].at.Some? && w.jobs[k].at.value < |w.log| && !WentThrough(key, w.log, w.jobs[k].at.value)
  }

  /** A session hands over its next transaction only after the end of its previous one was reported. */
  ghost predicate Legal(key: int, w: World, e: Event) {
    match e
    case HandOver(src, _, _) => forall k | 0 <= k < |w.jobs| && w.jobs[k].src == src :: w.jobs[k].reported
    case Execute(k, row) =>
      && k < |w.jobs| && w.jobs[k].at.None?
      && Regular(DbServers.Run(key, w.log), key, DbServers.Event(w.jobs[k].src, w.jobs[k].ep, w.jobs[k].t, row))
    case Report(k) => k < |w.jobs| && w.jobs[k].at.Some? && !w.jobs[k].reported
  }

  ghost function Next(key: int, w: World, e: Event): World
    requires Legal(key, w, e)
  {
    match e
    case HandOver(src, ep, t) =>
      w.(hands := w.hands + [Hand(src, t, w.enrolled)],
         jobs := if w.enrolled then w.jobs + [Job(src, ep, t, None, false)] else w.jobs)
    case Execute(k, row) =>
      w.(jobs := w.jobs[k := w.jobs[k].(at := Some(|w.log|))],
         log := w.log + [DbServers.Event(w.jobs[k].src, w.jobs[k].ep, w.jobs[k].t, row)])
    case Report(k) =>
      w.(jobs := w.jobs[k := w.jobs[k].(reported := true)], enrolled := w.enrolled && !Failed(key, w, k))
  }

  ghost predicate IsRun(key: int, es: seq<Event>)
    decreases |es|, 0
  {
    es == [] || (IsRun(key, es[..|es| - 1]) && Legal(key, Run(key, es[..|es| - 1]), es[|es| - 1]))
  }

  ghost function Run(key: int, es: seq<Event>): World
    requires IsRun(key, es)
    decreases |es|, 1
  {
    if es == [] then START else Next(key, Run(key, es[..|es| - 1]), es[|es| - 1])
  }

  // ---------------------------------------------------------------- the invariant

  /** The consumer is off the list exactly if a failure has been reported. */
  ghost predicate Punished(key: int, w: World) {
    w.enrolled <==> forall k | 0 <= k < |w.jobs| && w.jobs[k].reported :: !Failed(key, w, k)
  }

  /** Before a session's next transaction the earlier ones were reported and went through. */
  ghost predicate InTurn(key: int, w: World) {
    forall j, k | 0 <= j < k < |w.jobs| && w.jobs[j].src == w.jobs[k].src :: w.jobs[j].reported && !Failed(key, w, j)
  }

  /** Jobs and executions belong together. */
  ghost predicate Recorded(key: int, w: World) {
    && (forall k | 0 <= k < |w.jobs| && w.jobs[k].at.Some? ::
          && w.jobs[k].at.value < |w.log|
          && w.log[w.jobs[k].at.value].src == w.jobs[k].src && w.log[w.jobs[k].at.value].t == w.jobs[k].t)
    && (forall k | 0 <= k < |w.jobs| && w.jobs[k].reported :: w.jobs[k].at.Some?)
  }

  ghost predicate Inv(key: int, w: World) {
    Punished(key, w) && InTurn(key, w) && Recorded(key, w) && Accounted(key, w) && DbServers.IsRun(key, w.log)
  }

  /** What does not touch jobs and executions leaves failures as they are. */
  lemma SameFailures(key: int, w: World, r: World)
    requires r.log == w.log && |w.jobs| <= |r.jobs|
    requires forall k | 0 <= k < |w.jobs| :: r.jobs[k].at == w.jobs[k].at && r.jobs[k].src == w.jobs[k].src
    ensures forall k | 0 <= k < |w.jobs| :: Failed(key, r, k) <==> Failed(key, w, k)
  {
    hide WentThrough;
  }

  /** The dead have a failed job. */
  ghost predicate Accounted(key: int, w: World) {
    forall s | s in Dead(w.log) :: exists k :: 0 <= k < |w.jobs| && w.jobs[k].src == s && Failed(key, w, k)
  }

  lemma SameAccount(key: int, w: World, r: World)
    requires r.log == w.log && |w.jobs| <= |r.jobs| && Accounted(key, w)
    requires forall k | 0 <= k < |w.jobs| :: r.jobs[k].at == w.jobs[k].at && r.jobs[k].src == w.jobs[k].src
    ensures Accounted(key, r)
  {
    SameFailures(key, w, r);
    hide Failed;
    forall s | s in Dead(r.log) ensures exists k :: 0 <= k < |r.jobs| && r.jobs[k].src == s && Failed(key, r, k) {
      var k :| 0 <= k < |w.jobs| && w.jobs[k].src == s && Failed(key, w, k);
      assert r.jobs[k].src == s;
    }
  }

  /** Nothing about the first jobs has changed but, perhaps, something about job k. */
  ghost predicate SameBut(key: int, w: World, r: World, k: int) {
    && |w.jobs| <= |r.jobs|
    && forall m | 0 <= m < |w.jobs| && m != k ::
         r.jobs[m] == w.jobs[m] && (Failed(key, r, m) <==> Failed(key, w, m))
  }

  lemma KeepsTurn(key: int, w: World, r: World, k: int)
    requires InTurn(key, w) && SameBut(key, w, r, k) && |r.jobs| == |w.jobs|
    requires 0 <= k < |w.jobs| ==> r.jobs[k].src == w.jobs[k].src && !w.jobs[k].reported
    ensures InTurn(key, r)
  {
    hide Failed;
    forall i, j | 0 <= i < j < |r.jobs| && r.jobs[i].src == r.jobs[j].src
      ensures r.jobs[i].reported && !Failed(key, r, i)
    {
      assert w.jobs[i].src == w.jobs[j].src;
    }
  }

  lemma KeepsPunished(key: int, w: World, r: World, k: int)
    requires Punished(key, w) && SameBut(key, w, r, k) && |r.jobs| == |w.jobs| && r.enrolled == w.enrolled
    requires 0 <= k < |w.jobs| ==> !w.jobs[k].reported && !r.jobs[k].reported
    ensures Punished(key, r)
  {
    hide Failed;
  }

  lemma HandOverKeepsInv(key: int, w: World, e: Event)
    requires Inv(key, w) && Legal(key, w, e) && e.HandOver?
    ensures Inv(key, Next(key, w, e))
  {
    var r := Next(key, w, e);
    SameFailures(key, w, r);
    SameAccount(key, w, r);
    assert Recorded(key, r);
    hide Failed, DbServers.IsRun, Accounted, InTurn, Punished, Recorded;
    if w.enrolled {
      NewJobIsOpen(key, r, |w.jobs|);
      NewJobInTurn(key, w, r);
      NewJobPunished(key, w, r);
    } else {
      KeepsTurn(key, w, r, -1);
      KeepsPunished(key, w, r, -1);
    }
  }

  lemma NewJobPunished(key: int, w: World, r: World)
    requires Punished(key, w) && |r.jobs| == |w.jobs| + 1 && SameBut(key, w, r, -1)
    requires r.enrolled == w.enrolled && !r.jobs[|w.jobs|].reported
    ensures Punished(key, r)
  {
    hide Failed;
  }

  lemma NewJobInTurn(key: int, w: World, r: World)
    requires w.enrolled && Punished(key, w) && InTurn(key, w)
    requires |r.jobs| == |w.jobs| + 1 && SameBut(key, w, r, -1)
    requires forall k | 0 <= k < |w.jobs| && w.jobs[k].src == r.jobs[|w.jobs|].src :: w.jobs[k].reported
    ensures InTurn(key, r)
  {
    hide Failed;
  }

  lemma NewJobIsOpen(key: int, w: World, k: nat)
    requires k < |w.jobs| && w.jobs[k].at.None?
    ensures !Failed(key, w, k)
  {
  }

  lemma ReportKeepsInv(key: int, w: World, e: Event)
    requires Inv(key, w) && Legal(key, w, e) && e.Report?
    ensures Inv(key, Next(key, w, e))
  {
    SameFailures(key, w, Next(key, w, e));
    SameAccount(key, w, Next(key, w, e));
    hide Failed, DbServers.IsRun;
  }

  /** Nobody who failed to open is executed again. */
  lemma ExecutedIsAlive(key: int, w: World, k: nat)
    requires Inv(key, w) && k < |w.jobs| && w.jobs[k].at.None?
    ensures w.jobs[k].src !in Dead(w.log)
  {
    forall m | 0 <= m < |w.jobs| && Failed(key, w, m) ensures w.jobs[m].src != w.jobs[k].src {
      assert m != k;
    }
  }

  lemma LastOfItsSession(key: int, w: World, k: nat)
    requires Inv(key, w) && k < |w.jobs| && w.jobs[k].at.None?
    ensures forall m | k < m < |w.jobs| :: w.jobs[m].src != w.jobs[k].src
  {
    hide Failed;
    assert !w.jobs[k].reported;
  }

  /** An execution decides the fate of its own job only. */
  lemma FailuresAfterExecution(key: int, w: World, k: nat, row: nat)
    requires Recorded(key, w) && Legal(key, w, Execute(k, row))
    ensures forall m | 0 <= m < |w.jobs| && m != k ::
              Failed(key, Next(key, w, Execute(k, row)), m) <==> Failed(key, w, m)
  {
    var r := Next(key, w, Execute(k, row));
    forall m | 0 <= m < |w.jobs| && m != k ensures Failed(key, r, m) <==> Failed(key, w, m) {
      if w.jobs[m].at.Some? {
        assert r.log[..w.jobs[m].at.value] == w.log[..w.jobs[m].at.value];
      }
    }
  }

  lemma AccountAfterExecution(key: int, w: World, k: nat, row: nat)
    requires Inv(key, w) && Legal(key, w, Execute(k, row))
    ensures Accounted(key, Next(key, w, Execute(k, row)))
  {
    var r := Next(key, w, Execute(k, row));
    var n := |w.log|;
    FailuresAfterExecution(key, w, k, row);
    assert r.log[..n] == w.log;
    forall s | s in Dead(r.log) ensures exists m :: 0 <= m < |r.jobs| && r.jobs[m].src == s && Failed(key, r, m) {
      if s in Dead(w.log) {
        var m :| 0 <= m < |w.jobs| && w.jobs[m].src == s && Failed(key, w, m);
        assert r.jobs[m].src == s && Failed(key, r, m);
      } else {
        OpeningFails(DbServers.Run(key, w.log), key, r.log[n]);
        assert r.jobs[k].src == s && Failed(key, r, k);
      }
    }
  }

  lemma OpeningFails(db: Db, key: int, e: DbServers.Event)
    requires Regular(db, key, e) && FailsToOpen(e)
    ensures !Step(db, key, e).ok
  {
    RowIsNew(db, key, e);
  }

  lemma ExecuteKeepsInv(key: int, w: World, e: Event)
    requires Inv(key, w) && Legal(key, w, e) && e.Execute?
    ensures Inv(key, Next(key, w, e))
  {
    var r := Next(key, w, e);
    FailuresAfterExecution(key, w, e.k, e.row);
    AccountAfterExecution(key, w, e.k, e.row);
    ExecutedIsAlive(key, w, e.k);
    LogIsRun(key, w.log, r.log[|w.log|]);
    assert r.enrolled == w.enrolled && w.jobs[e.k].at.None?;
    RecordedAfterExecution(key, w, e.k, e.row);
    assert !w.jobs[e.k].reported;
    hide Failed, DbServers.IsRun, Accounted, Regular, Punished, InTurn, Recorded;
    KeepsTurn(key, w, r, e.k);
    KeepsPunished(key, w, r, e.k);
  }

  lemma RecordedAfterExecution(key: int, w: World, k: nat, row: nat)
    requires Recorded(key, w) && Legal(key, w, Execute(k, row))
    ensures Recorded(key, Next(key, w, Execute(k, row)))
  {
    hide Regular;
  }

  lemma LogIsRun(key: int, log: seq<DbServers.Event>, e: DbServers.Event)
    requires DbServers.IsRun(key, log) && Regular(DbServers.Run(key, log), key, e) && e.src !in Dead(log)
    ensures DbServers.IsRun(key, log + [e])
  {
    var es := log + [e];
    forall k | 0 <= k < |es| ensures Regular(DbServers.Run(key, es[..k]), key, es[k]) && es[k].src !in Dead(es[..k]) {
      if k < |log| {
        assert es[..k] == log[..k];
      } else {
        assert es[..k] == log;
      }
    }
  }

  lemma {:induction false} RunKeepsInv(key: int, es: seq<Event>)
    requires IsRun(key, es)
    ensures Inv(key, Run(key, es))
    decreases |es|
  {
    if es != [] {
      var n := |es| - 1;
      RunKeepsInv(key, es[..n]);
      match es[n]
      case HandOver(_, _, _) => HandOverKeepsInv(key, Run(key, es[..n]), es[n]);
      case Execute(_, _) => ExecuteKeepsInv(key, Run(key, es[..n]), es[n]);
      case Report(_) => ReportKeepsInv(key, Run(key, es[..n]), es[n]);
    }
  }

  // ---------------------------------------------------------------- what this gives

  lemma IsRunUpTo(key: int, log: seq<DbServers.Event>, j: nat)
    requires DbServers.IsRun(key, log) && j <= |log|
    ensures DbServers.IsRun(key, log[..j])
  {
    forall k | 0 <= k < j ensures log[..j][..k] == log[..k] && log[..j][k] == log[k] {
    }
  }

  /** The transaction of an executed job was acceptable to the consumer, with the tables it met. */
  ghost predicate Accepted(key: int, w: World, k: nat)
    requires k < |w.jobs|
  {
    && w.jobs[k].at.Some? && w.jobs[k].at.value < |w.log|
    && var j := w.jobs[k].at.value;
       Accepts(DbServers.Run(key, w.log[..j]), w.log[j])
  }

  lemma AcceptedIff(key: int, w: World, k: nat)
    requires Inv(key, w) && k < |w.jobs| && w.jobs[k].at.Some?
    ensures Accepted(key, w, k) <==> !Failed(key, w, k)
  {
    var j := w.jobs[k].at.value;
    IsRunUpTo(key, w.log, j);
    RunIsLinked(key, w.log[..j]);
    SucceedsIffAccepted(DbServers.Run(key, w.log[..j]), key, Dead(w.log[..j]), w.log[j]);
  }

  /** No transaction has been reported back that the consumer could not accept. */
  ghost predicate NothingRefused(key: int, w: World) {
    forall k | 0 <= k < |w.jobs| && w.jobs[k].reported :: Accepted(key, w, k)
  }

  /**
   Over every run of any number of sessions: the consumer is still given transactions, of all sessions, if and
   only if none was reported back so far that it could not accept. One such transaction ends it for everyone.
   */
  lemma RecordingGoesOnIff(key: int, es: seq<Event>)
    requires IsRun(key, es)
    ensures Run(key, es).enrolled <==> NothingRefused(key, Run(key, es))
  {
    RunKeepsInv(key, es);
    var w := Run(key, es);
    forall k | 0 <= k < |w.jobs| && w.jobs[k].reported ensures Accepted(key, w, k) <==> !Failed(key, w, k) {
      AcceptedIff(key, w, k);
    }
  }

  /** In particular a transaction handed over is given to the consumer exactly under that condition. */
  lemma GivenIff(key: int, es: seq<Event>)
    requires es != [] && IsRun(key, es) && es[|es| - 1].HandOver?
    ensures var w, before := Run(key, es), Run(key, es[..|es| - 1]);
            && |w.hands| == |before.hands| + 1
            && (w.hands[|before.hands|].given <==> NothingRefused(key, before))
            && |w.jobs| == |before.jobs| + if NothingRefused(key, before) then 1 else 0
  {
    RecordingGoesOnIff(key, es[..|es| - 1]);
  }

  /** Nothing more is given on behalf of a session with a failed transaction, its disconnect included. */
  lemma FailedSessionsAreDropped(key: int, es: seq<Event>, j: nat, k: nat)
    requires IsRun(key, es) && j < k < |Run(key, es).jobs|
    requires Run(key, es).jobs[j].src == Run(key, es).jobs[k].src
    ensures !Failed(key, Run(key, es), j)
  {
    RunKeepsInv(key, es);
  }

  /**
   A session that is closed before its first flush hands over nothing but a disconnect, which is not marked
   initial. The consumer does not know the session, so this transaction is one it cannot accept.
   */
  lemma UnopenedDisconnectIsRefused(db: Db, key: int, e: DbServers.Event)
    requires e.t == DISCONNECT && e.src !in db.sources
    ensures !Accepts(db, e) && !Step(db, key, e).ok
  {
  }

  lemma RunSnoc(key: int, es: seq<Event>, e: Event)
    requires IsRun(key, es) && Legal(key, Run(key, es), e)
    ensures IsRun(key, es + [e]) && Run(key, es + [e]) == Next(key, Run(key, es), e)
  {
    assert (es + [e])[..|es|] == es;
  }

  lemma RefusedAtOnce(key: int, w: World, src: nat, ep: Endpoint)
    requires w.enrolled && src !in DbServers.Run(key, w.log).sources
    requires forall k | 0 <= k < |w.jobs| :: w.jobs[k].src != src
    ensures Legal(key, w, HandOver(src, ep, DISCONNECT))
    ensures Legal(key, Next(key, w, HandOver(src, ep, DISCONNECT)), Execute(|w.jobs|, 0))
    ensures var r := Next(key, Next(key, w, HandOver(src, ep, DISCONNECT)), Execute(|w.jobs|, 0));
            Legal(key, r, Report(|w.jobs|)) && !Next(key, r, Report(|w.jobs|)).enrolled
  {
    var e := DbServers.Event(src, ep, DISCONNECT, 0);
    UnopenedDisconnectIsRefused(DbServers.Run(key, w.log), key, e);
    assert (w.log + [e])[..|w.log|] == w.log;
    hide Step, DbServers.Run;
  }

  /** So a connection lost between its greeting and its first flush can end the recording of everyone at any time. */
  lemma EarlyLossEndsRecording(key: int, es: seq<Event>, src: nat, ep: Endpoint)
    requires IsRun(key, es) && Run(key, es).enrolled
    requires src !in DbServers.Run(key, Run(key, es).log).sources
    requires forall k | 0 <= k < |Run(key, es).jobs| :: Run(key, es).jobs[k].src != src
    ensures var n := |Run(key, es).jobs|;
            var more := es + [HandOver(src, ep, DISCONNECT)] + [Execute(n, 0)] + [Report(n)];
            IsRun(key, more) && !Run(key, more).enrolled
  {
    hide Legal, Next, IsRun, Run, DbServers.Run;
    var n := |Run(key, es).jobs|;
    var a, b, c := HandOver(src, ep, DISCONNECT), Execute(n, 0), Report(n);
    RefusedAtOnce(key, Run(key, es), src, ep);
    RunSnoc(key, es, a);
    RunSnoc(key, es + [a], b);
    RunSnoc(key, es + [a] + [b], c);
  }

  // ---------------------------------------------------------------- from hand-over to execution

  function HandsOf(hands: seq<Hand>, src: nat): seq<Tx> {
    if hands == [] then [] else
    var h := hands[|hands| - 1];
    HandsOf(hands[..|hands| - 1], src) + if h.src == src then [h.t] else []
  }

  function JobsOf(jobs: seq<Job>, src: nat): seq<Tx> {
    if jobs == [] then [] else
    var j := jobs[|jobs| - 1];
    JobsOf(jobs[..|jobs| - 1], src) + if j.src == src then [j.t] else []
  }

  /** The executed ones among them. */
  function DoneOf(jobs: seq<Job>, src: nat): seq<Tx> {
    if jobs == [] then [] else
    var j := jobs[|jobs| - 1];
    DoneOf(jobs[..|jobs| - 1], src) + if j.src == src && j.at.Some? then [j.t] else []
  }

  /** Executing a session's last job puts it behind its other executed ones. */
  lemma {:induction false} DoneMore(jobs: seq<Job>, src: nat, k: nat, at: nat)
    requires k < |jobs| && jobs[k].at.None?
    requires forall m | k < m < |jobs| :: jobs[m].src != jobs[k].src
    ensures DoneOf(jobs[k := jobs[k].(at := Some(at))], src) ==
            DoneOf(jobs, src) + if jobs[k].src == src then [jobs[k].t] else []
  {
    var n := |jobs| - 1;
    var r := jobs[k := jobs[k].(at := Some(at))];
    if k < n {
      assert r[..n] == jobs[..n][k := jobs[k].(at := Some(at))];
      DoneMore(jobs[..n], src, k, at);
      if jobs[k].src == src {
        assert DoneOf(jobs, src) == DoneOf(jobs[..n], src) + [];
      }
    } else {
      assert r[..n] == jobs[..n];
    }
  }

  lemma {:induction false} SameDone(jobs: seq<Job>, other: seq<Job>, src: nat)
    requires |jobs| == |other|
    requires forall k | 0 <= k < |jobs| :: other[k] == jobs[k].(reported := other[k].reported)
    ensures DoneOf(other, src) == DoneOf(jobs, src) && JobsOf(other, src) == JobsOf(jobs, src)
  {
    if jobs != [] {
      SameDone(jobs[..|jobs| - 1], other[..|jobs| - 1], src);
    }
  }

  lemma {:induction false} SameJobs(jobs: seq<Job>, other: seq<Job>, src: nat)
    requires |jobs| == |other|
    requires forall k | 0 <= k < |jobs| :: other[k].src == jobs[k].src && other[k].t == jobs[k].t
    ensures JobsOf(other, src) == JobsOf(jobs, src)
  {
    if jobs != [] {
      SameJobs(jobs[..|jobs| - 1], other[..|jobs| - 1], src);
    }
  }

  lemma {:induction false} AllDone(jobs: seq<Job>, src: nat)
    requires forall k | 0 <= k < |jobs| && jobs[k].src == src :: jobs[k].at.Some?
    ensures DoneOf(jobs, src) == JobsOf(jobs, src)
  {
    if jobs != [] {
      AllDone(jobs[..|jobs| - 1], src);
    }
  }

  /** Executions follow the jobs, and jobs the hand-overs as long as nothing was refused. */
  ghost predicate InStep(w: World, src: nat) {
    && HandedBy(w.log, src) == DoneOf(w.jobs, src)
    && (w.enrolled ==> JobsOf(w.jobs, src) == HandsOf(w.hands, src))
  }

  lemma ExecuteStaysInStep(key: int, w: World, e: Event, src: nat)
    requires Inv(key, w) && Legal(key, w, e) && e.Execute? && InStep(w, src)
    ensures InStep(Next(key, w, e), src)
  {
    var r := Next(key, w, e);
    assert r.log[..|w.log|] == w.log;
    LastOfItsSession(key, w, e.k);
    DoneMore(w.jobs, src, e.k, |w.log|);
    SameJobs(w.jobs, r.jobs, src);
    hide Inv, Failed, Regular, DoneOf, JobsOf, HandsOf;
  }

  lemma HandOverStaysInStep(key: int, w: World, e: Event, src: nat)
    requires Legal(key, w, e) && e.HandOver? && InStep(w, src)
    ensures InStep(Next(key, w, e), src)
  {
    var r := Next(key, w, e);
    assert r.hands[..|w.hands|] == w.hands;
    if w.enrolled {
      assert r.jobs[..|w.jobs|] == w.jobs;
      assert DoneOf(w.jobs, src) + [] == DoneOf(w.jobs, src);
    }
  }

  lemma {:induction false} RunStaysInStep(key: int, es: seq<Event>, src: nat)
    requires IsRun(key, es)
    ensures InStep(Run(key, es), src)
    decreases |es|
  {
    if es != [] {
      var n := |es| - 1;
      var w := Run(key, es[..n]);
      RunStaysInStep(key, es[..n], src);
      RunKeepsInv(key, es[..n]);
      match es[n]
      case HandOver(_, _, _) => HandOverStaysInStep(key, w, es[n], src);
      case Execute(_, _) => ExecuteStaysInStep(key, w, es[n], src);
      case Report(k) => SameDone(w.jobs, Next(key, w, es[n]).jobs, src);
    }
  }

  /** While nothing was refused, what is executed of a session is what it handed over, once all of it is. */
  lemma ExecutedIsHanded(key: int, es: seq<Event>, src: nat)
    requires IsRun(key, es) && NothingRefused(key, Run(key, es))
    requires forall k | 0 <= k < |Run(key, es).jobs| && Run(key, es).jobs[k].src == src :: Run(key, es).jobs[k].at.Some?
    ensures DbServers.IsRun(key, Run(key, es).log)
    ensures HandedBy(Run(key, es).log, src) == HandsOf(Run(key, es).hands, src)
  {
    RunKeepsInv(key, es);
    RecordingGoesOnIff(key, es);
    RunStaysInStep(key, es, src);
    AllDone(Run(key, es).jobs, src);
  }
}
