/**
 ProcessorController.commit (server/recceiver/processors.py:119-138): every transaction goes to every
 processor, and a processor that fails one for any reason but a cancellation gets no more.
 */
module Controller {
  import opened CommitChain
  import opened Lists

  // ---------------------------------------------------------------- handing out

  /**
   The processors a transaction reaches. Those in `failing` fail at once, within the call, and are removed
   from the list while it is gone through, so that the one behind them is passed over.
   */
  function Reached(procs: seq<nat>, failing: set<nat>): seq<nat>
    decreases |procs|
  {
    if procs == [] then [] else
    [procs[0]] + Reached(if procs[0] !in failing then procs[1..] else if |procs| > 1 then procs[2..] else [], failing)
  }

  lemma {:induction false} OnlyListedAreReached(procs: seq<nat>, failing: set<nat>)
    ensures forall p | p in Reached(procs, failing) :: p in procs
    decreases |procs|
  {
    if procs != [] {
      var rest := if procs[0] !in failing then procs[1..] else if |procs| > 1 then procs[2..] else [];
      OnlyListedAreReached(rest, failing);
      assert forall p | p in rest :: p in procs;
    }
  }

  /** A processor is passed over exactly if the one before it was reached and failed at once. */
  lemma {:induction false} ReachedIff(procs: seq<nat>, failing: set<nat>, k: nat)
    requires NoDups(procs) && k < |procs|
    ensures procs[k] in Reached(procs, failing) <==>
            k == 0 || procs[k - 1] !in failing || procs[k - 1] !in Reached(procs, failing)
    decreases |procs|
  {
    var r := Reached(procs, failing);
    assert r[0] == procs[0];
    if procs[0] !in failing {
      ReachedLater(procs, failing, procs[1..]);
      if k >= 1 {
        if k >= 2 {
          ReachedIff(procs[1..], failing, k - 1);
        } else {
          assert procs[1..][0] in Reached(procs[1..], failing);
        }
      }
    } else if |procs| > 1 {
      ReachedLater(procs, failing, procs[2..]);
      OnlyListedAreReached(procs[2..], failing);
      assert procs[1] !in procs[2..] && procs[0] !in procs[2..];
      if k >= 3 {
        ReachedIff(procs[2..], failing, k - 2);
      } else if k == 2 {
        assert procs[2..][0] in Reached(procs[2..], failing);
      }
    }
  }

  /** The processors that stay on the list. */
  function Kept(procs: seq<nat>, failing: set<nat>): seq<nat>
    decreases |procs|
  {
    if procs == [] then []
    else if procs[0] !in failing then [procs[0]] + Kept(procs[1..], failing)
    else if |procs| > 1 then [procs[1]] + Kept(procs[2..], failing)
    else []
  }

  /** Exactly those that were reached and failed are gone. */
  lemma {:induction false} KeptIff(procs: seq<nat>, failing: set<nat>, q: nat)
    requires NoDups(procs)
    ensures q in Kept(procs, failing) <==> q in procs && !(q in failing && q in Reached(procs, failing))
    decreases |procs|
  {
    if procs != [] {
      if procs[0] !in failing {
        assert procs == [procs[0]] + procs[1..];
        KeptIff(procs[1..], failing, q);
      } else if |procs| > 1 {
        assert procs == [procs[0], procs[1]] + procs[2..];
        OnlyListedAreReached(procs[2..], failing);
        KeptIff(procs[2..], failing, q);
        assert q == procs[1] ==> q !in procs[2..] && q != procs[0];
      }
    }
  }

  lemma ReachedLater(procs: seq<nat>, failing: set<nat>, rest: seq<nat>)
    requires NoDups(procs) && procs != []
    requires rest == if procs[0] !in failing then procs[1..] else if |procs| > 1 then procs[2..] else []
    ensures NoDups(rest)
    ensures forall p :: p in Reached(procs, failing) <==> p == procs[0] || p in Reached(rest, failing)
  {
  }

  function After(rest: seq<nat>, failing: set<nat>): seq<nat>
    requires rest != []
  {
    if rest[0] !in failing then rest[1..] else if |rest| > 1 then rest[2..] else []
  }

  function Staying(rest: seq<nat>, failing: set<nat>): seq<nat>
    requires rest != []
  {
    if rest[0] !in failing then [rest[0]] else if |rest| > 1 then [rest[1]] else []
  }

  lemma HandStep(rest: seq<nat>, failing: set<nat>)
    requires rest != []
    ensures Reached(rest, failing) == [rest[0]] + Reached(After(rest, failing), failing)
    ensures Kept(rest, failing) == Staying(rest, failing) + Kept(After(rest, failing), failing)
  {
  }

  lemma KeptNone(failing: set<nat>)
    ensures Reached([], failing) == [] && Kept([], failing) == []
  {
  }

  // ---------------------------------------------------------------- what the session is told

  /** find_first_error */
  function FirstError(outcomes: seq<Outcome>): Outcome {
    if outcomes == [] then Committed
    else if outcomes[0] != Committed then outcomes[0]
    else FirstError(outcomes[1..])
  }

  lemma {:induction false} CommittedIff(outcomes: seq<Outcome>)
    ensures FirstError(outcomes) == Committed <==> forall o | o in outcomes :: o == Committed
  {
    if outcomes != [] {
      assert outcomes == [outcomes[0]] + outcomes[1..] && outcomes[0] in outcomes;
      CommittedIff(outcomes[1..]);
      assert forall o | o in outcomes[1..] :: o in outcomes;
    }
  }

  /** A failure is hidden from the session exactly by a cancellation further up the list. */
  lemma {:induction false} FailedIff(outcomes: seq<Outcome>)
    ensures FirstError(outcomes) == Failed <==>
            exists k | 0 <= k < |outcomes| :: outcomes[k] == Failed && Cancelled !in outcomes[..k]
  {
    if outcomes != [] {
      var rest := outcomes[1..];
      if outcomes[0] == Committed {
        FailedIff(rest);
        forall k | 0 <= k < |rest| ensures Cancelled in rest[..k] <==> Cancelled in outcomes[..k + 1] {
          assert outcomes[..k + 1] == [Committed] + rest[..k];
        }
        if k :| 0 <= k < |rest| && rest[k] == Failed && Cancelled !in rest[..k] {
          assert outcomes[k + 1] == Failed && Cancelled !in outcomes[..k + 1];
        }
        if k :| 0 <= k < |outcomes| && outcomes[k] == Failed && Cancelled !in outcomes[..k] {
          assert rest[k - 1] == Failed && Cancelled !in rest[..k - 1];
        }
      } else if outcomes[0] == Failed {
        assert outcomes[0] == Failed && Cancelled !in outcomes[..0];
      } else {
        assert forall k | 0 < k < |outcomes| :: outcomes[..k][0] == Cancelled;
      }
    }
  }

  lemma WithoutAt(procs: seq<nat>, i: nat)
    requires NoDups(procs) && i < |procs|
    ensures var r := procs[..i] + procs[i + 1..];
            && NoDups(r) && |r| == |procs| - 1 && r[i..] == procs[i + 1..]
            && (forall q :: q in r <==> q in procs && q != procs[i])
  {
    assert procs == procs[..i] + [procs[i]] + procs[i + 1..];
  }

  lemma Assoc(a: seq<nat>, b: seq<nat>, c: seq<nat>)
    ensures a + b + c == a + (b + c)
  {
  }

  lemma Without(procs: seq<nat>, i: nat)
    requires i < |procs|
    ensures var r := procs[..i] + procs[i + 1..];
            |r| == |procs| - 1 && r[..i] == procs[..i] && r[i..] == procs[i..][1..]
  {
  }

  lemma StepOn(procs: seq<nat>, i: nat)
    requires i < |procs|
    ensures procs[..i + 1] == procs[..i] + [procs[i..][0]] && procs[i + 1..] == procs[i..][1..]
  {
  }

  class ProcessorController {
    var procs: seq<nat>

    constructor (procs: seq<nat>)
      ensures this.procs == procs
    {
      this.procs := procs;
    }

    /** punish */
    method Punish(p: nat, outcome: Outcome)
      requires NoDups(procs)
      modifies this
      ensures NoDups(procs)
      ensures forall q :: q in procs <==> q in old(procs) && !(outcome.Failed? && q == p)
    {
      if outcome.Cancelled? || outcome.Committed? {
        return;
      }
      for i := 0 to |procs|
        invariant procs == old(procs)
        invariant forall k | 0 <= k < i :: procs[k] != p
      {
        if procs[i] == p {
          WithoutAt(procs, i);
          procs := procs[..i] + procs[i + 1..];
          return;
        }
      }
    }

    /** Hand a transaction to the processors; those in `failing` fail at once and are removed at once. */
    method HandOut(failing: set<nat>) returns (reached: seq<nat>)
      modifies this
      ensures reached == Reached(old(procs), failing) && procs == Kept(old(procs), failing)
    {
      reached := [];
      var i := 0;
      assert procs[..0] == [] && procs[0..] == procs;
      KeptNone(failing);
      hide Reached, Kept;
      while i < |procs|
        invariant 0 <= i <= |procs|
        invariant reached + Reached(procs[i..], failing) == Reached(old(procs), failing)
        invariant procs[..i] + Kept(procs[i..], failing) == Kept(old(procs), failing)
        decreases |procs| - i
      {
        ghost var rest, before := procs[i..], procs[..i];
        HandStep(rest, failing);
        Assoc(reached, [rest[0]], Reached(After(rest, failing), failing));
        Assoc(before, Staying(rest, failing), Kept(After(rest, failing), failing));
        reached := reached + [procs[i]];
        if procs[i] in failing {
          Without(procs, i);
          procs := procs[..i] + procs[i + 1..];
        }
        if i < |procs| {
          StepOn(procs, i);
          i := i + 1;
        }
      }
      assert procs[..i] == procs && procs[i..] == [];
    }
  }
}
