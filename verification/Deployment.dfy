/**
 Everything together: many sessions commit into one database, each through its own commit chain, and the
 messages of one of them come from a C client.
 */
module Deployment {
  import opened Bytes
  import opened Transactions
  import opened DbStore
  import opened DbServers
  import opened CommitChain
  import SessionSpec
  import Recording
  import Upload
  import Framing
  import Pipeline
  import PdbPush

  // ---------------------------------------------------------------- one session's commits

  /**
   A session's commits, whatever becomes of each: the factory gets the flushed transactions in order, each
   once; only the first is marked initial; and when the chain has come to rest after the session was closed,
   exactly one disconnect has been handed over, as the last.
   */
  lemma CommitsOfASession(l: SessionSpec.Limits, ins: seq<SessionSpec.Input>, es: seq<CommitChain.Event<Tx>>)
    requires FlushedBy(es) == SessionSpec.Close(SessionSpec.Run(l, ins)).flushed
    ensures var data, c := SessionSpec.Run(l, ins).flushed, CommitChain.Run(es);
            && c.handed <= data + [DISCONNECT]
            && (!c.busy ==> c.handed == data + [DISCONNECT])
            && forall k | 0 <= k < |c.handed| ::
                 (c.handed[k].initial <==> k == 0 < |data|) && (c.handed[k].connected <==> k < |data|)
  {
    OneAtATimeInOrder(es);
    SessionSpec.RunIsSound(l, ins);
    var data, c := SessionSpec.Run(l, ins).flushed, CommitChain.Run(es);
    assert c.handed + c.waiting == data + [DISCONNECT];
    forall k | 0 <= k < |c.handed| ensures c.handed[k] == (data + [DISCONNECT])[k] {
      assert c.handed[k] == (c.handed + c.waiting)[k];
    }
  }

  // ---------------------------------------------------------------- many sessions' commits

  /** A session's data transactions: the first opens it, and they make sense one after the other. */
  ghost predicate Sane(ts: seq<Tx>) {
    && (forall k | 0 <= k < |ts| :: (ts[k].initial <==> k == 0) && ts[k].connected)
    && CommitAll(NOTHING, ts).Success?
  }

  lemma SanePrefix(ts: seq<Tx>, t: Tx)
    requires Sane(ts + [t])
    ensures Sane(ts) && t.connected && (t.initial <==> ts == [])
    ensures CommitTables(CommitAll(NOTHING, ts).value, t).Success?
  {
    var all := ts + [t];
    assert all[..|all| - 1] == ts && all[|ts|] == t;
    forall k | 0 <= k < |ts| ensures (ts[k].initial <==> k == 0) && ts[k].connected {
      assert all[k] == ts[k];
    }
  }

  /** The commits of such a session that reach the database all succeed, whatever others commit in between. */
  lemma {:induction false} SaneCommitsSucceed(key: int, es: seq<DbServers.Event>, src: nat)
    requires IsRun(key, es) && Sane(HandedBy(es, src))
    ensures EffectiveOf(key, es, src) == HandedBy(es, src) && src !in Dead(es)
    ensures src in DbServers.Run(key, es).sources <==> HandedBy(es, src) != []
  {
    if es != [] {
      var n := |es| - 1;
      RunPrefix(key, es);
      if es[n].src != src {
        assert HandedBy(es, src) == HandedBy(es[..n], src);
        SaneCommitsSucceed(key, es[..n], src);
      } else {
        SanePrefix(HandedBy(es[..n], src), es[n].t);
        SaneCommitsSucceed(key, es[..n], src);
        OwnCommitSucceeds(key, es, src);
      }
    }
  }

  lemma OwnCommitSucceeds(key: int, es: seq<DbServers.Event>, src: nat)
    requires es != [] && IsRun(key, es) && es[|es| - 1].src == src
    requires var before, t := es[..|es| - 1], es[|es| - 1].t;
             && IsRun(key, before) && t.connected && (t.initial <==> HandedBy(before, src) == [])
             && EffectiveOf(key, before, src) == HandedBy(before, src) && src !in Dead(before)
             && (src in DbServers.Run(key, before).sources <==> HandedBy(before, src) != [])
             && CommitAll(NOTHING, HandedBy(before, src)).Success?
             && CommitTables(CommitAll(NOTHING, HandedBy(before, src)).value, t).Success?
    ensures Step(DbServers.Run(key, es[..|es| - 1]), key, es[|es| - 1]).ok
    ensures src in DbServers.Run(key, es).sources && EffectiveOf(key, es, src) == HandedBy(es, src)
    ensures src !in Dead(es)
  {
    var n := |es| - 1;
    var db := DbServers.Run(key, es[..n]);
    RunIsLinked(key, es[..n]);
    if es[n].t.initial {
      LinksSurviveIff(db, key, Dead(es[..n]), es[n]);
      RowIsNew(db, key, es[n]);
    } else {
      EachSessionByItself(key, es[..n], src);
    }
  }

  /** An upload whose transactions were executed, among others, has become exactly the rows of its client. */
  lemma ExecutedUploadIsRows(
    clientKey: nat, pdb: Upload.Pdb, first: nat, chunks: seq<seq<byte>>,
    l: SessionSpec.Limits, ins: seq<SessionSpec.Input>, key: int, es: seq<DbServers.Event>, src: nat)
    requires first != 0 && Upload.Sensible(pdb) && Pipeline.PdbFits(pdb, first) && clientKey < TWO32
    requires Concat(chunks) == PdbPush.WireOf(Pipeline.Conversation(clientKey, pdb, first))
    requires SessionSpec.MessagesOf(ins) == Pipeline.Decoded(Framing.FeedAll(Framing.START, chunks).delivered)
    requires IsRun(key, es) && HandedBy(es, src) == SessionSpec.Run(l, ins).flushed
    requires HandedBy(es, src) != []
    ensures var db := DbServers.Run(key, es);
            && src in db.sources && db.sources[src] in db.servers
            && db.servers[db.sources[src]].tables == Upload.TablesOf(pdb, first)
  {
    hide *;
    PdbPush.ClientBytesReachTheTables(clientKey, pdb, first, chunks, l, ins);
    FlushedIsSane(l, ins);
    SaneCommitsSucceed(key, es, src);
    EachSessionByItself(key, es, src);
  }

  /**
   One C client among many. It sends its process database; the bytes arrive in any pieces; its session cuts
   the messages into transactions by any limit and clock and hands them over; other sessions do so in between,
   and the consumer executes and reports in any order. As long as no transaction of anybody was reported back
   that the consumer could not accept, which is exactly as long as it is given any, the client's rows are
   exactly its process database once its transactions have been executed.
   */
  lemma EveryClientGetsItsRows(
    clientKey: nat, pdb: Upload.Pdb, first: nat, chunks: seq<seq<byte>>,
    l: SessionSpec.Limits, ins: seq<SessionSpec.Input>, key: int, es: seq<Recording.Event>, src: nat)
    requires first != 0 && Upload.Sensible(pdb) && Pipeline.PdbFits(pdb, first) && clientKey < TWO32
    requires Concat(chunks) == PdbPush.WireOf(Pipeline.Conversation(clientKey, pdb, first))
    requires SessionSpec.MessagesOf(ins) == Pipeline.Decoded(Framing.FeedAll(Framing.START, chunks).delivered)
    requires Recording.IsRun(key, es) && Recording.NothingRefused(key, Recording.Run(key, es))
    requires var w := Recording.Run(key, es);
             && Recording.HandsOf(w.hands, src) == SessionSpec.Run(l, ins).flushed != []
             && forall k | 0 <= k < |w.jobs| && w.jobs[k].src == src :: w.jobs[k].at.Some?
    ensures var db := DbServers.Run(key, Recording.Run(key, es).log);
            && src in db.sources && db.sources[src] in db.servers
            && db.servers[db.sources[src]].tables == Upload.TablesOf(pdb, first)
  {
    hide *;
    Recording.ExecutedIsHanded(key, es, src);
    ExecutedUploadIsRows(clientKey, pdb, first, chunks, l, ins, key, Recording.Run(key, es).log, src);
  }

  lemma FlushedIsSane(l: SessionSpec.Limits, ins: seq<SessionSpec.Input>)
    requires CommitAll(NOTHING, SessionSpec.Run(l, ins).flushed).Success?
    ensures Sane(SessionSpec.Run(l, ins).flushed)
  {
    SessionSpec.RunIsSound(l, ins);
  }

  // ---------------------------------------------------------------- a session by itself

  /** The commits of one session in an empty database. */
  function Alone(src: nat, ep: Endpoint, ts: seq<Tx>): seq<DbServers.Event> {
    seq(|ts|, k requires 0 <= k < |ts| => DbServers.Event(src, ep, ts[k], 1))
  }

  lemma {:induction false} AloneHands(src: nat, ep: Endpoint, ts: seq<Tx>)
    ensures HandedBy(Alone(src, ep, ts), src) == ts
  {
    if ts != [] {
      var n := |ts| - 1;
      assert Alone(src, ep, ts)[..n] == Alone(src, ep, ts[..n]);
      AloneHands(src, ep, ts[..n]);
      assert ts == ts[..n] + [ts[n]];
    }
  }

  lemma {:induction false} FirstSucceeds(ts: seq<Tx>)
    requires ts != [] && CommitAll(NOTHING, ts).Success?
    ensures CommitTables(NOTHING, ts[0]).Success?
  {
    var n := |ts| - 1;
    if n == 0 {
      assert ts[..0] == [];
    } else {
      FirstSucceeds(ts[..n]);
    }
  }

  lemma {:induction false} AloneIsAlive(src: nat, ep: Endpoint, ts: seq<Tx>, k: nat)
    requires Sane(ts) && k <= |ts|
    ensures Dead(Alone(src, ep, ts)[..k]) == {}
  {
    if k > 0 {
      AloneIsAlive(src, ep, ts, k - 1);
      assert Alone(src, ep, ts)[..k][..k - 1] == Alone(src, ep, ts)[..k - 1];
      if k == 1 {
        FirstSucceeds(ts);
      }
    }
  }

  /** They are a run of the kind ExecutedUploadIsRows speaks of. */
  lemma AloneIsARun(key: int, src: nat, ep: Endpoint, ts: seq<Tx>)
    requires Sane(ts)
    ensures IsRun(key, Alone(src, ep, ts)) && HandedBy(Alone(src, ep, ts), src) == ts
  {
    AloneHands(src, ep, ts);
    var es := Alone(src, ep, ts);
    forall k | 0 <= k < |es|
      ensures Regular(DbServers.Run(key, es[..k]), key, es[k]) && es[k].src !in Dead(es[..k])
    {
      AloneIsAlive(src, ep, ts, k);
      if k == 0 {
        FirstSucceeds(ts);
        assert DbServers.Run(key, es[..0]) == Db(map[], map[]);
        assert MaxOf({}) == 0;
      }
    }
  }
}
