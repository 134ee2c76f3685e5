/**
 Reads at a storage of a running cluster.

 The cluster of engines, storages and sequencers runs as in `Durability`; every
 metalog that reaches one of the storages also moves its live window, while reads
 and the background flush go on at that storage.
 */
module ClusterReads {
  import opened MetaLogs
  import opened LogSpaces
  import opened LiteMode
  import opened Layouts
  import opened StorageDelivery
  import S = Sequencing
  import D = Durability
  import W = StorageWindow

  datatype State = State(cluster: D.State, node: W.Node)

  datatype Step = Node(local: W.Step) | Cluster(global: D.Step)

  // What a metalog does to the window of a storage.
  ghost function WindowAfter(sp: Space, m: MetaLog, data: Data, maxLive: nat, n: W.Node): W.Node
    requires ValidSpace(sp) && WellFormed(m, |sp.progress|)
  {
    var o := Provide(sp, m);
    n.(window := W.ApplyBatches(n.window, maxLive, BatchesOf(o.calls, data)).(seqnumPosition := o.space.seqnumPosition))
  }

  ghost predicate Receives(s: D.State, id: nat, k: nat, data: Data, maxLive: nat, n: W.Node, n': W.Node) {
    && id in s.storages && k < |s.sequencer.log|
    && ValidSpace(s.storages[id].space) && WellFormed(s.sequencer.log[k], |s.storages[id].space.progress|)
    && n' == WindowAfter(s.storages[id].space, s.sequencer.log[k], data, maxLive, n)
  }

  // One step of the cluster, or of the reads and the flush at storage `id`.
  ghost predicate NextStep(c: S.Config, v: Layout, id: nat, data: Data, maxLive: nat, s: State, s': State, step: Step) {
    match step
    case Node(sub) => !sub.Apply? && s'.cluster == s.cluster && W.NextStep(map[], maxLive, s.node, s'.node, sub)
    case Cluster(sub) =>
      && D.NextStep(c, v, s.cluster, s'.cluster, sub)
      && if sub.ToStorage? && sub.storage == id then Receives(s.cluster, id, sub.k, data, maxLive, s.node, s'.node)
         else s'.node == s.node
  }

  ghost predicate Next(c: S.Config, v: Layout, id: nat, data: Data, maxLive: nat, s: State, s': State) {
    exists step :: NextStep(c, v, id, data, maxLive, s, s', step)
  }

  ghost predicate IsRun(c: S.Config, v: Layout, id: nat, data: Data, maxLive: nat, run: seq<State>) {
    && run != []
    && if |run| == 1 then
         D.Init(c, v, run[0].cluster) && run[0].node == W.Node(W.Window([], map[], 0, 0, [], []), map[], W.Idle)
       else
         && IsRun(c, v, id, data, maxLive, run[..|run| - 1])
         && Next(c, v, id, data, maxLive, run[|run| - 2], run[|run| - 1])
  }

  lemma {:induction false} ClusterInv(c: S.Config, v: Layout, id: nat, data: Data, maxLive: nat, run: seq<State>)
    requires D.ValidSystem(c, v) && IsRun(c, v, id, data, maxLive, run)
    ensures D.Inv(c, v, run[|run| - 1].cluster)
  {
    if |run| == 1 {
      D.InitInv(c, v, run[0].cluster);
    } else {
      var front, s, s' := run[..|run| - 1], run[|run| - 2], run[|run| - 1];
      assert front[|front| - 1] == s;
      ClusterInv(c, v, id, data, maxLive, front);
      var step :| NextStep(c, v, id, data, maxLive, s, s', step);
      if step.Cluster? {
        D.StepInv(c, v, s.cluster, s'.cluster, step.global);
      }
    }
  }

  // The storage's window is right for all entries of the final log, and as far as its log space.
  ghost predicate WindowFollows(s: State, id: nat, owned: Entries) {
    && id in s.cluster.storages && W.Inv(owned, s.node)
    && s.node.window.seqnumPosition == s.cluster.storages[id].space.seqnumPosition
  }

  lemma {:induction false} ReceiveInv(s: D.State, id: nat, k: nat, data: Data, maxLive: nat, n: W.Node, n': W.Node,
                                      log: seq<MetaLog>, owned: Entries)
    requires Receives(s, id, k, data, maxLive, n, n') && W.Inv(owned, n)
    requires var sp := s.storages[id].space;
             && n.window.seqnumPosition == sp.seqnumPosition && s.sequencer.log <= log
             && Follows(sp, log) && Settled(sp, log) && Describes(owned, log, |sp.progress|, Heard(sp), data)
    ensures W.Inv(owned, n')
    ensures n'.window.seqnumPosition == Provide(s.storages[id].space, s.sequencer.log[k]).space.seqnumPosition
  {
    WindowAfterInv(s.storages[id].space, log, k, data, maxLive, n, owned);
  }

  lemma {:induction false} WindowAfterInv(sp: Space, log: seq<MetaLog>, k: nat, data: Data, maxLive: nat, n: W.Node,
                                       owned: Entries)
    requires W.Inv(owned, n) && n.window.seqnumPosition == sp.seqnumPosition && k < |log|
    requires Follows(sp, log) && Settled(sp, log) && WellFormed(log[k], |sp.progress|)
    requires Describes(owned, log, |sp.progress|, Heard(sp), data)
    ensures W.Inv(owned, WindowAfter(sp, log[k], data, maxLive, n))
  {
    ProvideHandsTo(owned, sp, log, data, k);
    var o := Provide(sp, log[k]);
    W.StepInv(owned, maxLive, n, WindowAfter(sp, log[k], data, maxLive, n),
              W.Apply(BatchesOf(o.calls, data), o.space.seqnumPosition));
  }

  lemma {:induction false} NodeStepInv(owned: Entries, maxLive: nat, n: W.Node, n': W.Node, step: W.Step)
    requires W.NextStep(map[], maxLive, n, n', step) && !step.Apply? && W.Inv(owned, n)
    ensures W.Inv(owned, n') && n'.window.seqnumPosition == n.window.seqnumPosition
  {
    assert W.NextStep(owned, maxLive, n, n', step);
    W.StepInv(owned, maxLive, n, n', step);
    match step {
      case Read(r) => W.ReadAtRight(n.window, n.db, owned, r);
      case Persisted =>
        W.ShrinkRight(n.window.(persisted := n.flush.position), n.db, owned, n.window.seqnumPosition, maxLive);
      case _ =>
    }
  }

  // Which cluster steps move the storage's log space.
  lemma {:induction false} OtherStepsKeepSpace(c: S.Config, v: Layout, s: D.State, s': D.State, step: D.Step, id: nat)
    requires D.NextStep(c, v, s, s', step) && id in s.storages && !s'.aborted
    ensures id in s'.storages
    ensures !(step.ToStorage? && step.storage == id) ==> s'.storages[id].space == s.storages[id].space
    ensures step.ToStorage? && step.storage == id ==>
              && step.k < |s.sequencer.log| && ValidSpace(s.storages[id].space)
              && WellFormed(s.sequencer.log[step.k], |s.storages[id].space.progress|)
              && s'.storages[id].space == Provide(s.storages[id].space, s.sequencer.log[step.k]).space
  {
  }

  lemma {:induction false} StepFollows(c: S.Config, v: Layout, id: nat, data: Data, maxLive: nat, s: State, s': State,
                                       step: Step, log: seq<MetaLog>, owned: Entries)
    requires D.ValidSystem(c, v) && id in v.sourcesOf && D.Inv(c, v, s.cluster) && !s'.cluster.aborted
    requires NextStep(c, v, id, data, maxLive, s, s', step) && WindowFollows(s, id, owned)
    requires s.cluster.sequencer.log <= log && Chain(log, c.shards)
    requires Describes(owned, log, c.shards, S.Members(v.sourcesOf[id]), data)
    ensures WindowFollows(s', id, owned)
  {
    match step {
      case Node(sub) => NodeStepInv(owned, maxLive, s.node, s'.node, sub);
      case Cluster(sub) =>
        OtherStepsKeepSpace(c, v, s.cluster, s'.cluster, sub, id);
        if sub.ToStorage? && sub.storage == id {
          D.StorageFollows(c, v, s.cluster, id);
          FollowsLonger(s.cluster.storages[id].space, s.cluster.sequencer.log, log);
          ReceiveInv(s.cluster, id, sub.k, data, maxLive, s.node, s'.node, log, owned);
        }
    }
  }

  // In every state of a run the window is right.
  ghost predicate AlwaysFollows(run: seq<State>, id: nat, owned: Entries) {
    run != [] ==> AlwaysFollows(run[..|run| - 1], id, owned) && WindowFollows(run[|run| - 1], id, owned)
  }

  lemma {:induction false} RunFollows(c: S.Config, v: Layout, id: nat, data: Data, maxLive: nat, run: seq<State>,
                                      log: seq<MetaLog>, owned: Entries)
    requires D.ValidSystem(c, v) && id in v.sourcesOf && IsRun(c, v, id, data, maxLive, run)
    requires run[|run| - 1].cluster.sequencer.log <= log && Chain(log, c.shards)
    requires Describes(owned, log, c.shards, S.Members(v.sourcesOf[id]), data)
    ensures AlwaysFollows(run, id, owned)
  {
    var front := run[..|run| - 1];
    if |run| == 1 {
      assert front == [];
      AtStart(c, v, run[0], id, owned);
    } else {
      assert front[|front| - 1] == run[|run| - 2];
      LastLogGrows(c, v, id, data, maxLive, run);
      RunFollows(c, v, id, data, maxLive, front, log, owned);
      LastFollows(c, v, id, data, maxLive, run, log, owned);
    }
  }

  lemma {:induction false} LastFollows(c: S.Config, v: Layout, id: nat, data: Data, maxLive: nat, run: seq<State>,
                                       log: seq<MetaLog>, owned: Entries)
    requires D.ValidSystem(c, v) && id in v.sourcesOf && |run| > 1 && IsRun(c, v, id, data, maxLive, run)
    requires AlwaysFollows(run[..|run| - 1], id, owned)
    requires run[|run| - 2].cluster.sequencer.log <= log && Chain(log, c.shards)
    requires Describes(owned, log, c.shards, S.Members(v.sourcesOf[id]), data)
    ensures WindowFollows(run[|run| - 1], id, owned)
  {
    var front, s, s' := run[..|run| - 1], run[|run| - 2], run[|run| - 1];
    assert front[|front| - 1] == s;
    var step :| NextStep(c, v, id, data, maxLive, s, s', step);
    NeitherAborts(c, v, id, data, maxLive, front, run);
    StepFollows(c, v, id, data, maxLive, s, s', step, log, owned);
  }

  lemma {:induction false} NeitherAborts(c: S.Config, v: Layout, id: nat, data: Data, maxLive: nat, front: seq<State>,
                                         run: seq<State>)
    requires D.ValidSystem(c, v) && IsRun(c, v, id, data, maxLive, front) && IsRun(c, v, id, data, maxLive, run)
    ensures D.Inv(c, v, front[|front| - 1].cluster) && !run[|run| - 1].cluster.aborted
  {
    ClusterInv(c, v, id, data, maxLive, front);
    ClusterInv(c, v, id, data, maxLive, run);
  }

  lemma {:induction false} AtStart(c: S.Config, v: Layout, s: State, id: nat, owned: Entries)
    requires D.ValidSystem(c, v) && D.Init(c, v, s.cluster) && id in v.sourcesOf
    requires s.node == W.Node(W.Window([], map[], 0, 0, [], []), map[], W.Idle)
    ensures WindowFollows(s, id, owned)
  {
    assert W.Inv(owned, s.node);
  }

  lemma {:induction false} LastLogGrows(c: S.Config, v: Layout, id: nat, data: Data, maxLive: nat, run: seq<State>)
    requires |run| > 1 && IsRun(c, v, id, data, maxLive, run)
    ensures run[|run| - 2].cluster.sequencer.log <= run[|run| - 1].cluster.sequencer.log
  {
    var s, s' := run[|run| - 2], run[|run| - 1];
    var step :| NextStep(c, v, id, data, maxLive, s, s', step);
    if step.Cluster? {
      D.LogGrows(c, v, s.cluster, s'.cluster, step.global);
    }
  }

  // Where the entry with sequence number s, entry l of shard e, is at a storage: in the window, in the
  // database, or stored and waiting for its metalog.
  ghost predicate Kept(st: D.Storage, n: W.Node, data: Data, s: nat, e: nat, l: nat) {
    if s < n.window.seqnumPosition
    then || (s in n.window.entries && n.window.entries[s] == data((e, l)))
         || (s < n.window.persisted && s in n.db && n.db[s] == data((e, l)))
    else (e, l) in st.pending
  }

  // Every answer to a read of s is the entry, or sends the reader to a database that has it; and no
  // read of s waits once its metalog has arrived.
  ghost predicate ReadsRight(n: W.Node, s: nat, entry: W.LogEntry) {
    && (forall j :: 0 <= j < |n.window.results| && n.window.results[j].request.seqnum == s ==>
          match n.window.results[j].status
          case Ok(e) => e == entry
          case LookupDB => s in n.db && n.db[s] == entry
          case Failed => false)
    && (forall j :: 0 <= j < |n.window.waiting| && n.window.waiting[j].seqnum == s ==> n.window.seqnumPosition <= s)
  }

  /** Reads in a running cluster.  In every run, for every entry that a cut has given a sequence number
      and every storage of its engine: the storage has the entry, in its window, in its database, or
      stored and waiting for the metalog; and whatever the order of messages, reads and flushes, every
      read of the sequence number at that storage was answered with the entry, or sent to a database
      that has it, or waits for a metalog still to come. */
  lemma {:induction false} ReadsInCluster(c: S.Config, v: Layout, id: nat, data: Data, maxLive: nat, run: seq<State>,
                                          k: nat, e: nat, l: nat)
    requires D.ValidSystem(c, v) && IsRun(c, v, id, data, maxLive, run) && e < c.shards && id in v.storagesOf[e]
    requires k < |run[|run| - 1].cluster.sequencer.log| && Covers(run[|run| - 1].cluster.sequencer.log[k], e, l)
    ensures var last := run[|run| - 1];
            var s := SeqnumIn(last.cluster.sequencer.log[k], e, l);
            && !last.cluster.aborted && id in last.cluster.storages
            && Kept(last.cluster.storages[id], last.node, data, s, e, l)
            && ReadsRight(last.node, s, data((e, l)))
  {
    var last := run[|run| - 1];
    var log, shards := last.cluster.sequencer.log, S.Members(v.sourcesOf[id]);
    ClusterInv(c, v, id, data, maxLive, run);
    D.StorageFollows(c, v, last.cluster, id);
    var owned := Owned(log, c.shards, shards, data);
    OwnedDescribes(log, c.shards, shards, data);
    RunFollows(c, v, id, data, maxLive, run, log, owned);
    var s := SeqnumIn(log[k], e, l);
    assert Cell(owned, shards, data, s, e, l);
    WindowAnswers(owned, last.node, s, data((e, l)));
    if s >= last.node.window.seqnumPosition {
      StillPending(c, v, last.cluster, id, k, e, l);
    }
  }

  lemma {:induction false} WindowAnswers(owned: Entries, n: W.Node, s: nat, entry: W.LogEntry)
    requires W.Inv(owned, n) && W.Owns(owned, s, entry)
    ensures ReadsRight(n, s, entry)
    ensures s < n.window.seqnumPosition ==>
              || (s in n.window.entries && n.window.entries[s] == entry)
              || (s < n.window.persisted && s in n.db && n.db[s] == entry)
  {
    forall j | 0 <= j < |n.window.results| && n.window.results[j].request.seqnum == s
      ensures match n.window.results[j].status
              case Ok(e) => e == entry
              case LookupDB => s in n.db && n.db[s] == entry
              case Failed => false
    {
      assert W.AnswerRight(n.window.results[j], owned, n.db);
    }
  }

  // An entry whose metalog has not arrived at the storage is stored there.
  lemma {:induction false} StillPending(c: S.Config, v: Layout, s: D.State, id: nat, k: nat, e: nat, l: nat)
    requires D.ValidSystem(c, v) && D.Inv(c, v, s) && e < c.shards && id in v.storagesOf[e] && id in s.storages
    requires k < |s.sequencer.log| && Covers(s.sequencer.log[k], e, l)
    requires SeqnumIn(s.sequencer.log[k], e, l) >= s.storages[id].space.seqnumPosition
    ensures (e, l) in s.storages[id].pending
  {
    var log, sp := s.sequencer.log, s.storages[id].space;
    D.StorageFollows(c, v, s, id);
    D.CutIsStored(c, v, s, e, id);
    BeyondPosition(log, c.shards, k, e, l, sp.position);
    assert D.StorageRight(s.storages[id], v.sourcesOf[id], s.producers);
  }

  lemma {:induction false} BeyondPosition(log: seq<MetaLog>, n: nat, k: nat, e: nat, l: nat, p: nat)
    requires Chain(log, n) && k < |log| && e < n && Covers(log[k], e, l) && p <= |log|
    requires SeqnumIn(log[k], e, l) >= Total(log, p)
    ensures ShardStart(log, p, e) <= l < ShardStart(log, |log|, e)
  {
    assert Continues(log, k, n);
    SeqnumInRange(log, n, k, e, l);
    if k < p {
      SumsMonotone(log, k + 1, p);
    } else {
      SumsMonotone(log, p, k);
    }
    SumsMonotone(log, k + 1, |log|);
  }
}
