/** The index data a storage sends is the truth about the log. */
module IndexFeed {
  import opened MetaLogs
  import opened LogSpaces
  import opened LiteMode
  import opened StorageDelivery
  import opened Storages
  import opened Layouts
  import S = Sequencing
  import D = Durability
  import L = Lookup
  import X = Indexing

  // The log in sequence number order, as an index must hold it.
  ghost function Truth(cuts: seq<MetaLog>, n: nat, data: Data): seq<L.IndexEntry>
    requires Chain(cuts, n)
  {
    seq(Total(cuts, |cuts|), s requires 0 <= s < Total(cuts, |cuts|) => EntryAt(cuts, n, data, s))
  }

  ghost function EntryAt(cuts: seq<MetaLog>, n: nat, data: Data, s: nat): L.IndexEntry
    requires Chain(cuts, n) && s < Total(cuts, |cuts|)
  {
    var id := Place(cuts, n, s);
    L.IndexEntry(s, id.0, data(id).userLogspace, data(id).tags)
  }

  lemma {:induction false} TruthInOrder(cuts: seq<MetaLog>, n: nat, data: Data)
    requires Chain(cuts, n) && Total(cuts, |cuts|) <= L.TWO32 && forall id :: L.EMPTY_TAG !in data(id).tags
    ensures X.InOrder(Truth(cuts, n, data))
  {
    var truth := Truth(cuts, n, data);
    forall s | 0 <= s < |truth|
      ensures truth[s].seqnum == s && L.EMPTY_TAG !in truth[s].tags
    {
      var id := Place(cuts, n, s);
      assert L.EMPTY_TAG !in data(id).tags;
    }
  }

  ghost predicate IsCall(cuts: seq<MetaLog>, n: nat, c: NewLogs) {
    exists k: nat, i: nat :: CallIs(cuts, n, c, k, i)
  }

  ghost predicate CallIs(cuts: seq<MetaLog>, n: nat, c: NewLogs, k: nat, i: nat) {
    k < |cuts| && i < n && |cuts[k].starts| == |cuts[k].deltas| == n && c == CallFor(cuts[k], i)
  }

  ghost predicate AreCalls(cuts: seq<MetaLog>, n: nat, calls: seq<NewLogs>) {
    forall j :: 0 <= j < |calls| ==> IsCall(cuts, n, calls[j])
  }

  lemma {:induction false} CutCalls(cuts: seq<MetaLog>, n: nat, heard: set<nat>, k: nat, i: nat)
    requires k < |cuts| && |cuts[k].starts| == |cuts[k].deltas| == n && i <= n
    ensures AreCalls(cuts, n, CallsUpTo(cuts[k], heard, i))
  {
    if i > 0 {
      CutCalls(cuts, n, heard, k, i - 1);
      assert CallIs(cuts, n, CallFor(cuts[k], i - 1), k, i - 1);
    }
  }

  lemma {:induction false} AdvanceCalls(sp: Space, cuts: seq<MetaLog>)
    requires Follows(sp, cuts)
    ensures AreCalls(cuts, |sp.progress|, Advance(sp).calls)
    decreases |sp.pending|
  {
    var stop, k, next := Turn(sp, cuts);
    if !stop {
      AdvanceCalls(next, cuts);
      if k >= sp.position {
        CutCalls(cuts, |sp.progress|, Heard(sp), k, |sp.progress|);
      }
    }
  }

  lemma {:induction false} CallTrue(cuts: seq<MetaLog>, n: nat, data: Data, c: NewLogs, j: nat)
    requires Chain(cuts, n) && IsCall(cuts, n, c) && j < c.delta
    ensures X.True(Truth(cuts, n, data), IndexOf(c, data)[j])
  {
    var k: nat, i: nat :| CallIs(cuts, n, c, k, i);
    assert Continues(cuts, k, n);
    var l, s := c.startLocal + j, c.startSeqnum + j;
    assert Covers(cuts[k], i, l) && SeqnumIn(cuts[k], i, l) == s;
    PlaceIs(cuts, n, k, i, l);
  }

  lemma {:induction false} CallsTrue(cuts: seq<MetaLog>, n: nat, data: Data, calls: seq<NewLogs>)
    requires Chain(cuts, n) && AreCalls(cuts, n, calls)
    ensures X.DataFits(Truth(cuts, n, data), IndexOfCalls(calls, data))
  {
    if calls != [] {
      var front, last := calls[..|calls| - 1], calls[|calls| - 1];
      CallsTrue(cuts, n, data, front);
      forall j | 0 <= j < last.delta
        ensures X.True(Truth(cuts, n, data), IndexOf(last, data)[j])
      {
        CallTrue(cuts, n, data, last, j);
      }
    }
  }

  /** Whatever metalogs a storage receives, in whatever order, the index data it sends describes the
      entries of the total order: any index may take it, from any storage and any number of times. */
  lemma {:induction false} FeedTrue(sp: Space, cuts: seq<MetaLog>, data: Data, k: nat)
    requires Follows(sp, cuts) && Settled(sp, cuts) && k < |cuts| && WellFormed(cuts[k], |sp.progress|)
    ensures var feed := IndexOfCalls(Provide(sp, cuts[k]).calls, data);
            X.DataFits(Truth(cuts, |sp.progress|, data), feed)
  {
    ReceivedFollows(sp, cuts, k);
    if k >= sp.position {
      AdvanceCalls(sp.(pending := sp.pending[k := cuts[k]]), cuts);
    }
    CallsTrue(cuts, |sp.progress|, data, Provide(sp, cuts[k]).calls);
  }

  // An index of the log: its truth is acceptable, and every metalog fits when its turn comes.
  ghost predicate LogFits(log: seq<MetaLog>, n: nat, truth: seq<L.IndexEntry>) {
    X.InOrder(truth) && forall j :: 0 <= j < |log| ==> Chain(log[..j] + [log[j]], n)
  }

  lemma {:induction false} CutsFit(log: seq<MetaLog>, n: nat, data: Data)
    requires Chain(log, n) && Total(log, |log|) <= L.TWO32 && forall id :: L.EMPTY_TAG !in data(id).tags
    ensures LogFits(log, n, Truth(log, n, data))
  {
    TruthInOrder(log, n, data);
    forall j | 0 <= j < |log|
      ensures Chain(log[..j] + [log[j]], n)
    {
      assert log[..j] + [log[j]] == log[..j + 1];
      ChainPrefix(log, j + 1, n);
    }
  }

  // What a storage sends when it receives a metalog fits an index of the log.
  ghost predicate FeedFits(sp: Space, m: MetaLog, log: seq<MetaLog>, n: nat, data: Data) {
    && ValidSpace(sp) && WellFormed(m, |sp.progress|) && Chain(log, n)
    && X.DataFits(Truth(log, n, data), IndexOfCalls(Provide(sp, m).calls, data))
  }

  // A storage at some point of a run, and the log at its end.
  lemma {:induction false} StorageAt(c: S.Config, v: Layout, run: seq<D.State>, i: nat, id: nat)
    requires D.ValidSystem(c, v) && D.IsRun(c, v, run) && i < |run| && id in v.sourcesOf
    ensures run[i].sequencer.log <= run[|run| - 1].sequencer.log && Chain(run[|run| - 1].sequencer.log, c.shards)
    ensures id in run[i].storages
    ensures D.FollowsLite(run[i].storages[id].space, run[i].sequencer.log, S.Members(v.sourcesOf[id]), c.shards)
  {
    var now := run[..i + 1];
    D.LogsGrow(c, v, run, i);
    assert now[|now| - 1] == run[i];
    D.RunStorage(c, v, now, id);
    D.RunStorage(c, v, run, id);
  }

  /** In every run of the cluster an index can be fed: the log at the end of the run is a truth that an
      index may be made for, its metalogs can be applied to the index one after another, and the index
      data that any storage sends at any point of the run, for any metalog it receives, fits. */
  lemma {:induction false} IndexFed(c: S.Config, v: Layout, run: seq<D.State>, data: Data, i: nat, id: nat, k: nat)
    requires D.ValidSystem(c, v) && D.IsRun(c, v, run) && i < |run| && id in v.sourcesOf && k < |run[i].sequencer.log|
    requires var log := run[|run| - 1].sequencer.log; Total(log, |log|) <= L.TWO32
    requires forall id :: L.EMPTY_TAG !in data(id).tags
    ensures var log := run[|run| - 1].sequencer.log;
            && id in run[i].storages && FeedFits(run[i].storages[id].space, run[i].sequencer.log[k], log, c.shards, data)
            && LogFits(log, c.shards, Truth(log, c.shards, data))
  {
    var log := run[|run| - 1].sequencer.log;
    StorageAt(c, v, run, i, id);
    CutsFit(log, c.shards, data);
    LateFeed(run[i].storages[id].space, run[i].sequencer.log, log, S.Members(v.sourcesOf[id]), c.shards, data, k);
  }

  // A delivery of one shard is one of all deliveries.
  lemma {:induction false} OnlyIn(ds: seq<Delivery>, shards: set<nat>)
    ensures forall d :: d in Only(ds, shards) ==> d in ds
  {
    if ds != [] {
      OnlyIn(ds[..|ds| - 1], shards);
    }
  }

  // Every entry of the shards below a position has been delivered.
  lemma {:induction false} EntryDelivered(log: seq<MetaLog>, n: nat, shards: set<nat>, data: Data, b: nat, s: nat)
    requires Chain(log, n) && Matched(log) && b <= |log| && s < Total(log, b) <= Total(log, |log|)
    requires Place(log, n, s).0 in shards
    ensures EntryAt(log, n, data, s) in Described(Replay(log, shards, 0, b), data)
  {
    var k, e, l := Locate(log, n, b, s);
    PlaceIs(log, n, k, e, l);
    var d := OneDelivered(log, n, shards, b, k, e, l);
    var ds := Replay(log, shards, 0, b);
    var j :| 0 <= j < |ds| && ds[j] == d;
    assert Described(ds, data)[j] == EntryAt(log, n, data, s);
  }

  lemma {:induction false} OneDelivered(log: seq<MetaLog>, n: nat, shards: set<nat>, b: nat, k: nat, e: nat, l: nat)
      returns (d: Delivery)
    requires Chain(log, n) && Matched(log) && k < b <= |log| && e in shards && e < n && Covers(log[k], e, l)
    ensures d in Replay(log, shards, 0, b) && d.shard == e && d.local == l && d.seqnum == SeqnumIn(log[k], e, l)
  {
    SeqnumOfIs(log, n, k, e, l);
    SeqnumInRange(log, n, k, e, l);
    SumsMonotone(log, k + 1, b);
    ReplayOfShard(log, n, e, b);
    d := Replay(log, {e}, 0, b)[l];
    OnlyOfReplay(log, shards, {e}, 0, b);
    assert shards * {e} == {e};
    OnlyIn(Replay(log, shards, 0, b), {e});
    assert d in Only(Replay(log, shards, 0, b), {e});
  }

  /** And nothing is left out: in every run, the index data that a storage has made so far describes every
      entry of its engines below its sequence number position, as the log has it. */
  lemma {:induction false} FeedComplete(c: S.Config, v: Layout, run: seq<D.State>, data: Data, id: nat, s: nat)
    requires D.ValidSystem(c, v) && D.IsRun(c, v, run) && id in v.sourcesOf
    requires var log := run[|run| - 1].sequencer.log; Chain(log, c.shards) && s < Total(log, |log|)
    requires Place(run[|run| - 1].sequencer.log, c.shards, s).0 in v.sourcesOf[id]
    ensures var last := run[|run| - 1];
            && id in last.storages
            && (s < last.storages[id].space.seqnumPosition ==>
                  EntryAt(last.sequencer.log, c.shards, data, s) in Described(last.storages[id].sequenced, data))
  {
    D.RunInv(c, v, run);
    var last := run[|run| - 1];
    var log, st, shards := last.sequencer.log, last.storages[id], S.Members(v.sourcesOf[id]);
    assert D.NodeFollows(st.space, st.sequenced, log, shards, c.shards);
    if s < st.space.seqnumPosition {
      SumsMonotone(log, st.space.position, |log|);
      EntryDelivered(log, c.shards, shards, data, st.space.position, s);
    }
  }

  // What a storage sends tells the truth about every longer log.
  lemma {:induction false} LateFeed(sp: Space, log: seq<MetaLog>, log': seq<MetaLog>, shards: set<nat>, n: nat, data: Data,
                                    k: nat)
    requires D.FollowsLite(sp, log, shards, n) && log <= log' && Chain(log', n) && k < |log|
    ensures FeedFits(sp, log[k], log', n, data)
  {
    FollowsLonger(sp, log, log');
    assert Continues(log', k, n);
    FeedTrue(sp, log', data, k);
  }
}
