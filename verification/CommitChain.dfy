/**
 The Deferred chain a session hangs its commits on (server/recceiver/recast.py:294-306): a queue with at
 most one commit in flight, which goes on after a commit whatever became of it.
 */
module CommitChain {
  datatype Outcome = Committed | Cancelled | Failed

  /** `handed` went to the factory's commit, oldest first; `waiting` has not yet. */
  datatype Chain<T> = Chain(handed: seq<T>, waiting: seq<T>, busy: bool, dropping: bool)

  datatype Event<T> = Flushed(t: T) | Finished(outcome: Outcome)

  function Enqueue<T>(c: Chain<T>, t: T): Chain<T> {
    if c.busy then c.(waiting := c.waiting + [t])
    else c.(handed := c.handed + [t], busy := true)
  }

  /** Nothing happened, or one transaction was enqueued. */
  ghost predicate Grown<T>(before: Chain<T>, after: Chain<T>) {
    var all := after.handed + after.waiting;
    after == before || (all != [] && after == Enqueue(before, all[|all| - 1]))
  }

  /** The commit in flight is over; a failure, but not a cancellation, drops the connection. */
  function Finish<T>(c: Chain<T>, outcome: Outcome): Chain<T> {
    if !c.busy then c else
    var d := c.(dropping := c.dropping || outcome.Failed?);
    if d.waiting == [] then d.(busy := false)
    else d.(handed := d.handed + [d.waiting[0]], waiting := d.waiting[1..])
  }

  function Next<T>(c: Chain<T>, e: Event<T>): Chain<T> {
    match e
    case Flushed(t) => Enqueue(c, t)
    case Finished(outcome) => Finish(c, outcome)
  }

  function Idle<T>(): Chain<T> {
    Chain([], [], false, false)
  }

  function Run<T>(es: seq<Event<T>>): Chain<T> {
    if es == [] then Idle() else Next(Run(es[..|es| - 1]), es[|es| - 1])
  }

  /** Everything flushed, in order. */
  function FlushedBy<T>(es: seq<Event<T>>): seq<T> {
    if es == [] then [] else
    var e := es[|es| - 1];
    FlushedBy(es[..|es| - 1]) + if e.Flushed? then [e.t] else []
  }

  /** How many commits have come to an end. */
  function Ended<T>(es: seq<Event<T>>): nat {
    if es == [] then 0 else
    Ended(es[..|es| - 1]) + if es[|es| - 1].Finished? && Run(es[..|es| - 1]).busy then 1 else 0
  }

  /**
   Whatever mix of commits succeed, fail or are cancelled: the transactions handed over are the flushed
   ones, each once and in order, minus those still waiting; a transaction is handed over only when every
   earlier commit has ended; and nothing waits while no commit is in flight.
   */
  lemma {:induction false} OneAtATimeInOrder<T>(es: seq<Event<T>>)
    ensures var c := Run(es);
            && c.handed + c.waiting == FlushedBy(es)
            && |c.handed| == Ended(es) + (if c.busy then 1 else 0)
            && (!c.busy ==> c.waiting == [])
  {
    if es != [] {
      var b := es[..|es| - 1];
      OneAtATimeInOrder(b);
      var c, d := Run(b), Run(es);
      if es[|es| - 1].Flushed? {
        assert d.handed + d.waiting == c.handed + c.waiting + [es[|es| - 1].t];
      } else if c.busy && c.waiting != [] {
        assert c.waiting == [c.waiting[0]] + c.waiting[1..];
        assert d.handed + d.waiting == c.handed + c.waiting;
      }
    }
  }

  function Finishes<T>(c: Chain<T>, outcomes: seq<Outcome>): Chain<T>
    decreases |outcomes|
  {
    if outcomes == [] then c else Finishes(Finish(c, outcomes[0]), outcomes[1..])
  }

  /**
   No outcome stops the chain: the k-th waiting transaction is handed over by the k-th end of a commit,
   so once as many commits have ended as were waiting, all have been handed over.
   */
  lemma {:induction false} NothingIsStranded<T>(c: Chain<T>, outcomes: seq<Outcome>)
    requires c.busy && |outcomes| <= |c.waiting|
    ensures var d := Finishes(c, outcomes);
            && d.handed == c.handed + c.waiting[..|outcomes|]
            && d.waiting == c.waiting[|outcomes|..] && d.busy
            && (d.dropping <==> c.dropping || Failed in outcomes)
    decreases |outcomes|
  {
    if outcomes == [] {
      assert c.handed + c.waiting[..0] == c.handed;
    } else {
      var d := Finish(c, outcomes[0]);
      NothingIsStranded(d, outcomes[1..]);
      assert d.handed + d.waiting[..|outcomes| - 1] == c.handed + c.waiting[..|outcomes|];
      assert outcomes == [outcomes[0]] + outcomes[1..];
    }
  }
}
