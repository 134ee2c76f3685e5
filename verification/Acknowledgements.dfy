/** What an engine tells the callers of appends, in every run of the cluster. */
module Acknowledgements {
  import opened MetaLogs
  import opened Layouts
  import opened Pending
  import opened Producers
  import opened StorageDelivery
  import opened IndexFeed
  import S = Sequencing
  import D = Durability
  import L = Lookup
  import P = ClusterProgress
  import Queries
  import Q = Sessions

  // The acknowledgement of the engine's append l: its sequence number in the total order, the progress
  // right after the metalog that covers it, and the data the caller gave.
  ghost predicate AckIs(log: seq<MetaLog>, n: nat, e: nat, l: nat, r: AppendResult, given: map<nat, nat>)
    requires Chain(log, n) && e < n
  {
    && r.local == l < ShardStart(log, |log|, e) && r.seqnum == SeqnumOf(log, n, e, l)
    && 0 < r.progress <= |log| && Covers(log[r.progress - 1], e, l)
    && l in given && r.callerData == given[l]
  }

  /** In every run, an engine has acknowledged exactly its appends up to its progress, in order, each once,
      and each with its sequence number, its progress and its caller's data. */
  lemma {:induction false} AcksRight(c: S.Config, v: Layout, run: seq<D.State>, e: nat, results: seq<AppendResult>,
                                     given: map<nat, nat>)
    requires D.ValidSystem(c, v) && D.IsRun(c, v, run) && e < c.shards
    requires e < |run[|run| - 1].producers| && Acks(results, run[|run| - 1].producers[e].results, given)
    ensures var s := run[|run| - 1];
            && Chain(s.sequencer.log, c.shards)
            && e < |s.producers[e].space.progress| && |results| == s.producers[e].space.progress[e]
            && forall l :: 0 <= l < |results| ==> AckIs(s.sequencer.log, c.shards, e, l, results[l], given)
  {
    var id := v.storagesOf[e][0];
    D.NodesAgree(c, v, run, e, id);
  }

  /** The same for an engine's object that is in the state of the run: of everything polled so far and
      everything still to be polled. */
  lemma {:induction false} EngineAcks(p: LogProducer, c: S.Config, v: Layout, run: seq<D.State>)
    requires p.Valid() && D.ValidSystem(c, v) && D.IsRun(c, v, run) && p.engine < c.shards
    requires p.engine < |run[|run| - 1].producers| && p.Model() == run[|run| - 1].producers[p.engine]
    ensures var s, results := run[|run| - 1], p.polled + p.pendingResults;
            && Chain(s.sequencer.log, c.shards)
            && forall l :: 0 <= l < |results| ==> AckIs(s.sequencer.log, c.shards, p.engine, l, results[l], p.given)
  {
    AcksRight(c, v, run, p.engine, p.polled + p.pendingResults, p.given);
  }

  // The query is for the entry's user log space, and for one of its tags or for all entries.
  predicate Asks(query: Queries.Query, x: W.LogEntry) {
    query.userLogspace == x.userLogspace && (query.tag == L.EMPTY_TAG || query.tag in x.tags)
  }

  // A read of a session over the log sees the acknowledged entry.
  ghost predicate SeesAck(log: seq<MetaLog>, n: nat, data: Data, space: nat, x: Q.Event, r: AppendResult)
    requires Chain(log, n) && x.Read?
  {
    var truth := Truth(log, n, data);
    && x.at <= |log| && Total(log, x.at) <= |truth|
    && (x.query.progress <= x.result.progress ==>
          Q.Sees(space, Q.Mine(truth, log, x.at, x.query.userLogspace), x.query, x.result, L.JoinTwo32(space, r.seqnum)))
  }

  // A session over the log in which an append is acknowledged and then its entry is asked for.
  ghost predicate AppendsThenReads(log: seq<MetaLog>, n: nat, data: Data, space: nat, events: seq<Q.Event>, a: nat, j: nat,
                                   r: AppendResult, id: LocalId)
    requires Chain(log, n)
  {
    && Q.IsSession(space, Truth(log, n, data), log, events) && a < j < |events|
    && events[a] == Q.Appended(L.JoinTwo32(space, r.progress))
    && events[j].Read? && events[j].query.progress / L.TWO32 == space && Asks(events[j].query, data(id))
  }

  lemma {:induction false} AckSeen(log: seq<MetaLog>, n: nat, data: Data, e: nat, l: nat, r: AppendResult,
                                   given: map<nat, nat>, space: nat, events: seq<Q.Event>, a: nat, j: nat)
    requires Chain(log, n) && e < n && AckIs(log, n, e, l, r, given)
    requires Total(log, |log|) <= L.TWO32 && |log| < L.TWO32 && forall id :: L.EMPTY_TAG !in data(id).tags
    requires AppendsThenReads(log, n, data, space, events, a, j, r, (e, l))
    ensures SeesAck(log, n, data, space, events[j], r)
  {
    var k := r.progress - 1;
    TruthInOrder(log, n, data);
    SeqnumOfIs(log, n, k, e, l);
    PlaceIs(log, n, k, e, l);
    Q.SessionSeesAppend(space, Truth(log, n, data), log, n, events, a, k, e, l, j);
  }

  /** Read your own writes, from end to end: in every run of the cluster, a function call that has been
      told sequence number and progress of its append, and later reads, sees its entry in the index
      of the log, if the answer carries at least the progress of the query. */
  lemma {:induction false} OwnWriteSeen(c: S.Config, v: Layout, run: seq<D.State>, data: Data, e: nat,
                                        results: seq<AppendResult>, given: map<nat, nat>, l: nat, space: nat,
                                        events: seq<Q.Event>, a: nat, j: nat)
    requires D.ValidSystem(c, v) && D.IsRun(c, v, run) && e < c.shards
    requires e < |run[|run| - 1].producers| && Acks(results, run[|run| - 1].producers[e].results, given) && l < |results|
    requires var log := run[|run| - 1].sequencer.log; Total(log, |log|) <= L.TWO32 && |log| < L.TWO32
    requires forall id :: L.EMPTY_TAG !in data(id).tags
    requires var log := run[|run| - 1].sequencer.log;
             Chain(log, c.shards) && AppendsThenReads(log, c.shards, data, space, events, a, j, results[l], (e, l))
    ensures SeesAck(run[|run| - 1].sequencer.log, c.shards, data, space, events[j], results[l])
  {
    AcksRight(c, v, run, e, results, given);
    AckSeen(run[|run| - 1].sequencer.log, c.shards, data, e, l, results[l], given, space, events, a, j);
  }

  /** Every append can be acknowledged: in every run in which no sequencer is frozen, the run can go on so that
      the engine has answered the append with its sequence number, progress and data. */
  lemma {:induction false} AppendsAnswered(c: S.Config, v: Layout, run: seq<D.State>, e: nat, l: nat) returns (run': seq<D.State>)
    requires D.ValidSystem(c, v) && D.IsRun(c, v, run) && P.Live(P.Last(run).sequencer) && c.backups != []
    requires e < c.shards && e < |P.Last(run).producers| && l < P.Last(run).producers[e].next
    ensures P.GoesOn(c, v, run, run') && Chain(P.Last(run').sequencer.log, c.shards) && e < |P.Last(run').producers|
    ensures forall results, given :: Acks(results, P.Last(run').producers[e].results, given) ==>
              l < |results| && AckIs(P.Last(run').sequencer.log, c.shards, e, l, results[l], given)
  {
    run' := P.AppendsGoThrough(c, v, run, e, l, v.storagesOf[e][0]);
    D.NodesAgree(c, v, run', e, v.storagesOf[e][0]);
    forall results, given | Acks(results, P.Last(run').producers[e].results, given)
      ensures l < |results| && AckIs(P.Last(run').sequencer.log, c.shards, e, l, results[l], given)
    {
      AcksRight(c, v, run', e, results, given);
    }
  }
}
