/**
 A run of the whole cluster: an entry is appended, stored, reported, cut,
 replicated, propagated to its storage and read there.
 */
module ClusterRuns {
  import opened MetaLogs
  import opened LogSpaces
  import opened LiteMode
  import opened Layouts
  import opened Primaries
  import opened Pending
  import opened StorageDelivery
  import Q = SequencerRuns
  import S = Sequencing
  import D = Durability
  import W = StorageWindow
  import R = ClusterReads

  // One engine, whose entries storage 7 keeps.
  const ONE: Layout := Layout([[7]], map[7 := [0]])

  lemma {:induction false} SystemOk()
    ensures D.ValidSystem(Q.ThreeReplicas(1), ONE)
  {
    assert ONE.storagesOf[0] == [7];
  }

  // ------------------------------------------------------------------------
  // The cluster up to the cut

  // The states differ in these parts only.
  function Cluster(q: S.State, progress: ShardProgress, line: seq<nat>, p: D.Producer, st: D.Storage,
                   reports: set<(nat, seq<nat>)>): D.State
  {
    D.State(q, progress, line, [p], map[7 := st], reports, false)
  }

  function NewProducer(sp: Space): D.Producer { D.Producer(sp, 0, {}, []) }
  function NewStorage(sp: Space): D.Storage { D.Storage(sp, map[0 := 0], {}, []) }
  function Appended(sp: Space): D.Producer { D.Producer(sp, 1, {(0, 0)}, []) }
  function Stored(sp: Space): D.Storage { D.Storage(sp, map[0 := 1], {(0, 0)}, []) }

  function Lite0(): Space {
    Fresh(Lite, {0}, 1)
  }

  lemma {:induction false} InitOk()
    ensures D.Init(Q.ThreeReplicas(1), ONE,
                   Cluster(Q.AtStart(), NoProgress(ONE), [0], NewProducer(Lite0()), NewStorage(Lite0()), {}))
  {
    assert seq(1, _ => 0) == [0];
    SequencersInit();
    StorageInit();
  }

  lemma {:induction false} SequencersInit()
    ensures S.Init(Q.ThreeReplicas(1), Q.AtStart())
  {
  }

  lemma {:induction false} StorageInit()
    ensures S.Members(ONE.sourcesOf[7]) == {0} && (map e | e in ONE.sourcesOf[7] :: 0) == map[0 := 0]
  {
    assert ONE.sourcesOf[7] == [0];
  }

  lemma {:induction false} AppendStep(c: S.Config, q: S.State, sp: Space)
    ensures D.NextStep(c, ONE, Cluster(q, NoProgress(ONE), [0], NewProducer(sp), NewStorage(sp), {}),
                       Cluster(q, NoProgress(ONE), [0], Appended(sp), NewStorage(sp), {}), D.Append(0))
  {
    assert {} + {(0, 0)} == {(0, 0)};
  }

  lemma {:induction false} OneStored()
    ensures Contiguous({(0, 0)}, 0, 0) == 1
  {
    var pending: set<LocalId> := {(0, 0)};
    assert pending - {(0, 0)} == {};
  }

  lemma {:induction false} StoreStep(c: S.Config, q: S.State, sp: Space)
    ensures D.NextStep(c, ONE, Cluster(q, NoProgress(ONE), [0], Appended(sp), NewStorage(sp), {}),
                       Cluster(q, NoProgress(ONE), [0], Appended(sp), Stored(sp), {}), D.Store(7, 0, 0))
  {
    OneStored();
    assert {} + {(0, 0)} == {(0, 0)};
    assert map[0 := 0][0 := 1] == map[0 := 1];
    var st := NewStorage(sp);
    assert D.StoreEntry(st, 0, 0) == Stored(sp);
    assert map[7 := st][7 := Stored(sp)] == map[7 := Stored(sp)];
  }

  lemma {:induction false} ReportStep(c: S.Config, q: S.State, sp: Space)
    ensures D.NextStep(c, ONE, Cluster(q, NoProgress(ONE), [0], Appended(sp), Stored(sp), {}),
                       Cluster(q, NoProgress(ONE), [0], Appended(sp), Stored(sp), {(7, [1])}), D.Report(7))
  {
    assert D.ReportOf(Stored(sp), [0]) == [1];
    assert {} + {(7, [1])} == {(7, [1])};
  }

  function Progress1(): ShardProgress {
    NoProgress(ONE)[(0, 7) := 1]
  }

  lemma {:induction false} ReceiveStep(c: S.Config, q: S.State, sp: Space)
    requires !q.primaryFrozen
    ensures D.NextStep(c, ONE, Cluster(q, NoProgress(ONE), [0], Appended(sp), Stored(sp), {(7, [1])}),
                       Cluster(q, Progress1(), [0], Appended(sp), Stored(sp), {(7, [1])}), D.ReceiveReport(7, [1]))
  {
    assert 7 in ONE.storagesOf[0];
    assert (0, 7) in NoProgress(ONE);
    assert Raised(NoProgress(ONE), 7, [0], [1], 0) == NoProgress(ONE);
    assert Raised(NoProgress(ONE), 7, [0], [1], 1) == Progress1();
  }

  lemma {:induction false} LineAt1()
    ensures ValidLayout(ONE) && HasPairs(ONE, Progress1()) && CutLine(ONE, Progress1()) == [1]
  {
    SystemOk();
    assert 7 in ONE.storagesOf[0];
    assert HasPairs(ONE, Progress1());
  }

  lemma {:induction false} CutStep(sp: Space, q: S.State, q': S.State)
    requires q.log == [] && !q.primaryFrozen && q.replicated == 0 && q' == q.(log := [Q.CUT0])
    ensures D.NextStep(Q.ThreeReplicas(1), ONE, Cluster(q, Progress1(), [0], Appended(sp), Stored(sp), {(7, [1])}),
                       Cluster(q', Progress1(), [1], Appended(sp), Stored(sp), {(7, [1])}), D.MarkCut)
  {
    LineAt1();
    Q.CutsChain();
    assert CutBetween([0], [1], 0, 0) == Q.CUT0;
    assert q.log + [Q.CUT0] == [Q.CUT0];
  }

  // ------------------------------------------------------------------------
  // Runs with the reads of storage 7

  function NoEntries(): W.Node {
    W.Node(W.Window([], map[], 0, 0, [], []), map[], W.Idle)
  }

  ghost predicate RunTo(data: Data, maxLive: nat, run: seq<R.State>, s: D.State, n: W.Node) {
    R.IsRun(Q.ThreeReplicas(1), ONE, 7, data, maxLive, run) && run[|run| - 1] == R.State(s, n)
  }

  lemma {:induction false} OneMoreStep(data: Data, maxLive: nat, run: seq<R.State>, s: R.State, step: R.Step)
    requires R.IsRun(Q.ThreeReplicas(1), ONE, 7, data, maxLive, run)
    requires R.NextStep(Q.ThreeReplicas(1), ONE, 7, data, maxLive, run[|run| - 1], s, step)
    ensures R.IsRun(Q.ThreeReplicas(1), ONE, 7, data, maxLive, run + [s])
  {
    var more := run + [s];
    assert more[..|more| - 1] == run && more[|more| - 2] == run[|run| - 1];
    assert R.Next(Q.ThreeReplicas(1), ONE, 7, data, maxLive, run[|run| - 1], s);
  }

  // A step of the cluster that does not reach the storage's window.
  lemma {:induction false} Elsewhere(data: Data, maxLive: nat, run: seq<R.State>, s: D.State, s': D.State, n: W.Node,
                                     step: D.Step) returns (run': seq<R.State>)
    requires RunTo(data, maxLive, run, s, n) && !step.ToStorage? && D.NextStep(Q.ThreeReplicas(1), ONE, s, s', step)
    ensures RunTo(data, maxLive, run', s', n)
  {
    OneMoreStep(data, maxLive, run, R.State(s', n), R.Cluster(step));
    run' := run + [R.State(s', n)];
  }

  lemma {:induction false} UpToCut(data: Data, maxLive: nat) returns (run: seq<R.State>)
    ensures RunTo(data, maxLive, run,
                  Cluster(Q.AtStart().(log := [Q.CUT0]), Progress1(), [1], Appended(Lite0()), Stored(Lite0()), {(7, [1])}),
                  NoEntries())
  {
    var c, q, sp, none := Q.ThreeReplicas(1), Q.AtStart(), Lite0(), NoProgress(ONE);
    var s0, s1 := Cluster(q, none, [0], NewProducer(sp), NewStorage(sp), {}), Cluster(q, none, [0], Appended(sp), NewStorage(sp), {});
    var s2, s3 := Cluster(q, none, [0], Appended(sp), Stored(sp), {}), Cluster(q, none, [0], Appended(sp), Stored(sp), {(7, [1])});
    var s4 := Cluster(q, Progress1(), [0], Appended(sp), Stored(sp), {(7, [1])});
    var s5 := Cluster(q.(log := [Q.CUT0]), Progress1(), [1], Appended(sp), Stored(sp), {(7, [1])});
    InitOk();
    run := [R.State(s0, NoEntries())];
    AppendStep(c, q, sp);
    run := Elsewhere(data, maxLive, run, s0, s1, NoEntries(), D.Append(0));
    StoreStep(c, q, sp);
    run := Elsewhere(data, maxLive, run, s1, s2, NoEntries(), D.Store(7, 0, 0));
    ReportStep(c, q, sp);
    run := Elsewhere(data, maxLive, run, s2, s3, NoEntries(), D.Report(7));
    ReceiveStep(c, q, sp);
    run := Elsewhere(data, maxLive, run, s3, s4, NoEntries(), D.ReceiveReport(7, [1]));
    CutStep(sp, q, q.(log := [Q.CUT0]));
    run := Elsewhere(data, maxLive, run, s4, s5, NoEntries(), D.MarkCut);
  }

  // A step of the sequencers.
  lemma {:induction false} Sequences(data: Data, maxLive: nat, run: seq<R.State>, s: D.State, q: S.State, n: W.Node,
                                     sub: S.Step) returns (run': seq<R.State>)
    requires RunTo(data, maxLive, run, s, n) && !sub.Cut? && S.NextStep(Q.ThreeReplicas(1), s.sequencer, q, sub)
    ensures RunTo(data, maxLive, run', s.(sequencer := q), n)
  {
    run' := Elsewhere(data, maxLive, run, s, s.(sequencer := q), n, D.Sequence(sub));
  }

  // The cut is replicated and propagated.
  lemma {:induction false} UpToPropagated(data: Data, maxLive: nat) returns (run: seq<R.State>, s: D.State)
    ensures RunTo(data, maxLive, run, s, NoEntries())
    ensures s.sequencer.log == [Q.CUT0] && 0 in s.sequencer.propagated
    ensures s.storages == map[7 := Stored(Lite0())] && !s.aborted
  {
    run := UpToCut(data, maxLive);
    s := run[|run| - 1].cluster;
    Q.FirstDelivered();
    var first := Provide(Q.Nothing(), Q.CUT0).space;
    var q1 := Q.FirstDeliveredTo(s.sequencer, Q.Nothing(), first);
    Q.DeliverStep(Q.ThreeReplicas(1), s.sequencer, Q.CUT0, Q.Nothing(), first);
    run := Sequences(data, maxLive, run, s, q1, NoEntries(), S.Deliver(1, 0));
    Q.AcknowledgeStep(Q.ThreeReplicas(1), q1);
    run := Sequences(data, maxLive, run, s.(sequencer := q1), Q.Acknowledged(q1), NoEntries(), S.Acknowledge(1, 1));
    s := s.(sequencer := Q.Acknowledged(q1));
  }

  // What a propagated metalog makes of a cluster at storage 7.
  ghost function AtStorage(s: D.State, st: D.Storage, m: MetaLog): D.State
    requires ValidSpace(st.space) && WellFormed(m, |st.space.progress|)
  {
    var o := Provide(st.space, m);
    match Take(st.pending, Deliveries(o.calls))
    case Missing => s.(aborted := true)
    case Taken(rest) =>
      s.(storages := s.storages[7 := st.(space := o.space, pending := rest, sequenced := st.sequenced + Deliveries(o.calls))])
  }

  lemma {:induction false} Arrives(data: Data, maxLive: nat, run: seq<R.State>, s: D.State, n: W.Node, st: D.Storage,
                                   m: MetaLog) returns (run': seq<R.State>)
    requires RunTo(data, maxLive, run, s, n) && 7 in s.storages && s.storages[7] == st
    requires s.sequencer.log == [m] && 0 in s.sequencer.propagated
    requires ValidSpace(st.space) && WellFormed(m, |st.space.progress|)
    ensures RunTo(data, maxLive, run', AtStorage(s, st, m), R.WindowAfter(st.space, m, data, maxLive, n))
  {
    var s' := R.State(AtStorage(s, st, m), R.WindowAfter(st.space, m, data, maxLive, n));
    assert D.NextStep(Q.ThreeReplicas(1), ONE, s, s'.cluster, D.ToStorage(7, 0));
    OneMoreStep(data, maxLive, run, s', R.Cluster(D.ToStorage(7, 0)));
    run' := run + [s'];
  }

  // A space that receives the one cut there is has all of its entries.
  lemma {:induction false} OnlyCutTaken(sp: Space, cuts: seq<MetaLog>)
    requires Follows(sp, cuts) && Settled(sp, cuts) && |cuts| == 1 && sp.position == 0
    ensures WellFormed(cuts[0], |sp.progress|) && Provide(sp, cuts[0]).space.seqnumPosition == Total(cuts, 1)
  {
    ProvideFollows(sp, cuts, 0);
    var sp' := Provide(sp, cuts[0]).space;
    assert 0 < sp'.position || 0 in sp'.pending;
  }

  lemma {:induction false} StorageTakes()
    ensures ValidSpace(Lite0()) && WellFormed(Q.CUT0, 1) && Provide(Lite0(), Q.CUT0).space.seqnumPosition == 1
  {
    Q.CutsChain();
    FreshFollows(Lite, {0}, 1, [Q.CUT0]);
    OnlyCutTaken(Lite0(), [Q.CUT0]);
    assert Sum([1]) == 1;
  }

  lemma {:induction false} Reads(data: Data, maxLive: nat, run: seq<R.State>, s: D.State, n: W.Node,
                                 r: W.Request) returns (run': seq<R.State>)
    requires RunTo(data, maxLive, run, s, n)
    ensures RunTo(data, maxLive, run', s, n.(window := W.ReadAt(n.window, r)))
  {
    var n' := n.(window := W.ReadAt(n.window, r));
    OneMoreStep(data, maxLive, run, R.State(s, n'), R.Node(W.Read(r)));
    run' := run + [R.State(s, n')];
  }

  lemma {:induction false} UpToArrived(data: Data, maxLive: nat) returns (run: seq<R.State>, s: D.State, n: W.Node)
    ensures RunTo(data, maxLive, run, s, n) && s.sequencer.log == [Q.CUT0]
    ensures n.window.seqnumPosition == 1 && n.db == map[]
  {
    run, s := UpToPropagated(data, maxLive);
    StorageTakes();
    run := Arrives(data, maxLive, run, s, NoEntries(), Stored(Lite0()), Q.CUT0);
    n := R.WindowAfter(Lite0(), Q.CUT0, data, maxLive, NoEntries());
    s := AtStorage(s, Stored(Lite0()), Q.CUT0);
  }

  /** A run of the whole cluster in which an entry is appended, stored, reported, cut, replicated,
      propagated to its storage, and read there: the last answer is the entry. */
  lemma {:induction false} EntryIsRead(data: Data, maxLive: nat) returns (run: seq<R.State>)
    ensures D.ValidSystem(Q.ThreeReplicas(1), ONE) && R.IsRun(Q.ThreeReplicas(1), ONE, 7, data, maxLive, run)
    ensures var results := run[|run| - 1].node.window.results;
            results != [] && results[|results| - 1] == W.ReadResult(W.Request(0, 5), W.Ok(data((0, 0))))
  {
    var s: D.State, n: W.Node;
    run, s, n := UpToArrived(data, maxLive);
    run := Reads(data, maxLive, run, s, n, W.Request(0, 5));
    SystemOk();
    assert Covers(Q.CUT0, 0, 0) && SeqnumIn(Q.CUT0, 0, 0) == 0;
    assert 7 in ONE.storagesOf[0];
    R.ReadsInCluster(Q.ThreeReplicas(1), ONE, 7, data, maxLive, run, 0, 0, 0);
    var results := run[|run| - 1].node.window.results;
    assert results[|results| - 1].request == W.Request(0, 5);
  }
}
