/**
 What can still happen in a running cluster.

 As long as no sequencer is frozen, nothing that the nodes have done so far can keep an
 append from being stored, cut, replicated, propagated and acknowledged.
 */
module ClusterProgress {
  import opened MetaLogs
  import opened LogSpaces
  import opened LiteMode
  import opened Layouts
  import opened Primaries
  import opened Pending
  import opened Durability
  import N = NodeFinality
  import R = Ranks
  import S = Sequencing

  ghost predicate Live(q: S.State) {
    !q.primaryFrozen && q.frozenBackups == {}
  }

  function Last(run: seq<State>): State
    requires run != []
  {
    run[|run| - 1]
  }

  // One run goes on as the other.
  ghost predicate GoesOn(c: S.Config, v: Layout, run: seq<State>, run': seq<State>) {
    IsRun(c, v, run') && run <= run'
  }

  lemma {:induction false} GoesOnTwice(c: S.Config, v: Layout, run: seq<State>, mid: seq<State>, run': seq<State>)
    requires GoesOn(c, v, run, mid) && GoesOn(c, v, mid, run')
    ensures GoesOn(c, v, run, run')
  {
  }

  lemma {:induction false} OneMore(c: S.Config, v: Layout, run: seq<State>, s: State, step: Step)
    requires IsRun(c, v, run) && NextStep(c, v, Last(run), s, step)
    ensures GoesOn(c, v, run, run + [s]) && Last(run + [s]) == s
  {
    var run' := run + [s];
    assert run'[..|run'| - 1] == run && run'[|run'| - 2] == Last(run);
  }

  // ------------------------------------------------------------------------
  // What the sequencers know

  // The position of every backup has been acknowledged.
  ghost predicate AcksKnown(c: S.Config, backups: map<nat, Space>, acks: set<(nat, nat)>) {
    forall b :: b in c.backups ==> b in backups && (backups[b].position > 0 ==> (b, backups[b].position) in acks)
  }

  ghost predicate AllPropagated(replicated: nat, propagated: set<nat>) {
    forall k: nat :: k < replicated ==> k in propagated
  }

  ghost predicate Known(c: S.Config, q: S.State) {
    AcksKnown(c, q.backups, q.acks) && AllPropagated(q.replicated, q.propagated)
  }

  lemma {:induction false} DeliverKnown(c: S.Config, q: S.State, q': S.State, b: nat, k: nat)
    requires S.Following(c, q.log, q.backups) && AcksKnown(c, q.backups, q.acks) && S.DoDeliver(c, q, q', b, k)
    ensures AcksKnown(c, q'.backups, q'.acks) && q'.replicated == q.replicated && q'.propagated == q.propagated
  {
    if b !in q.frozenBackups {
      ProvideFollows(q.backups[b], q.log, k);
    }
  }

  lemma {:induction false} AcknowledgeKnown(c: S.Config, q: S.State, q': S.State, b: nat, p: nat)
    requires AllPropagated(q.replicated, q.propagated) && S.DoAcknowledge(c, q, q', b, p)
    ensures AllPropagated(q'.replicated, q'.propagated) && q'.backups == q.backups && q'.acks == q.acks
  {
  }

  lemma {:induction false} OthersKnown(c: S.Config, q: S.State, q': S.State, step: S.Step)
    requires S.NextStep(c, q, q', step) && !step.Deliver? && !step.Acknowledge?
    ensures q'.backups == q.backups && q'.acks == q.acks && q'.replicated == q.replicated && q'.propagated == q.propagated
  {
  }

  lemma {:induction false} StepKnown(c: S.Config, q: S.State, q': S.State, step: S.Step)
    requires S.Following(c, q.log, q.backups) && Known(c, q) && S.NextStep(c, q, q', step)
    ensures Known(c, q')
  {
    match step
    case Deliver(b, k) => DeliverKnown(c, q, q', b, k);
    case Acknowledge(b, p) => AcknowledgeKnown(c, q, q', b, p);
    case _ => OthersKnown(c, q, q', step);
  }

  lemma {:induction false} RunKnown(c: S.Config, v: Layout, run: seq<State>)
    requires ValidSystem(c, v) && IsRun(c, v, run)
    ensures Known(c, Last(run).sequencer)
  {
    if |run| > 1 {
      var front, s, s' := run[..|run| - 1], run[|run| - 2], run[|run| - 1];
      assert front[|front| - 1] == s;
      RunKnown(c, v, front);
      FollowingAt(c, v, front);
      var step :| NextStep(c, v, s, s', step);
      SequencerKnown(c, v, s, s', step);
    }
  }

  lemma {:induction false} FollowingAt(c: S.Config, v: Layout, run: seq<State>)
    requires ValidSystem(c, v) && IsRun(c, v, run)
    ensures S.Following(c, Last(run).sequencer.log, Last(run).sequencer.backups)
  {
    RunInv(c, v, run);
  }

  lemma {:induction false} SequencerKnown(c: S.Config, v: Layout, s: State, s': State, step: Step)
    requires S.Following(c, s.sequencer.log, s.sequencer.backups) && Known(c, s.sequencer) && NextStep(c, v, s, s', step)
    ensures Known(c, s'.sequencer)
  {
    match step
    case Sequence(sub) => StepKnown(c, s.sequencer, s'.sequencer, sub);
    case _ =>
  }

  // ------------------------------------------------------------------------
  // A node that receives all metalogs

  function Up(k: nat): seq<nat> {
    seq(k, i requires 0 <= i < k => i)
  }

  lemma {:induction false} AllReceived(sp: Space, o: Outcome, cuts: seq<MetaLog>)
    requires Follows(sp, cuts) && Arrived(sp, o, cuts, Up(|cuts|))
    ensures o.space.position == |cuts|
  {
    var ks := Up(|cuts|);
    forall k | 0 <= k < |cuts|
      ensures k in ks
    {
      assert ks[k] == k;
    }
    if |cuts| > 0 {
      assert |cuts| - 1 in ks;
      assert |cuts| - 1 < o.space.position || |cuts| - 1 in o.space.pending;
    }
  }

  lemma {:induction false} OneMoreArrival(sp: Space, cuts: seq<MetaLog>, k: nat)
    requires ValidSpace(sp) && Chain(cuts, |sp.progress|) && k < |cuts|
    ensures Cuts(Up(k), cuts) && Cuts(Up(k + 1), cuts) && WellFormed(cuts[k], |sp.progress|)
    ensures ValidSpace(Arrive(sp, cuts, Up(k)).space) && |Arrive(sp, cuts, Up(k)).space.progress| == |sp.progress|
    ensures Arrive(sp, cuts, Up(k + 1)).space == Provide(Arrive(sp, cuts, Up(k)).space, cuts[k]).space
  {
    assert Up(k + 1)[..k] == Up(k);
    assert Continues(cuts, k, |sp.progress|);
  }

  // sp' is the space after the first k metalogs.
  ghost predicate ArrivedUp(sp: Space, log: seq<MetaLog>, k: nat, sp': Space) {
    && ValidSpace(sp) && Chain(log, |sp.progress|) && k <= |log| && Cuts(Up(k), log)
    && sp' == Arrive(sp, log, Up(k)).space
  }

  lemma {:induction false} ArrivedNone(sp: Space, log: seq<MetaLog>)
    requires ValidSpace(sp) && Chain(log, |sp.progress|)
    ensures ArrivedUp(sp, log, 0, sp)
  {
    assert Up(0) == [];
  }

  lemma {:induction false} ArrivedOneMore(sp: Space, log: seq<MetaLog>, k: nat, mid: Space)
    requires ArrivedUp(sp, log, k, mid) && k < |log|
    ensures ValidSpace(mid) && WellFormed(log[k], |mid.progress|) && ArrivedUp(sp, log, k + 1, Provide(mid, log[k]).space)
  {
    OneMoreArrival(sp, log, k);
  }

  lemma {:induction false} ArrivedAll(sp: Space, log: seq<MetaLog>, sp': Space)
    requires Follows(sp, log) && Settled(sp, log) && ArrivedUp(sp, log, |log|, sp')
    ensures Follows(sp', log) && SameSpace(sp, sp') && sp'.position == |log|
  {
    ArriveFollows(sp, log, Up(|log|));
    AllReceived(sp, Arrive(sp, log, Up(|log|)), log);
  }

  // ------------------------------------------------------------------------
  // Replication

  // Only the sequencers have moved, and they have cut nothing and frozen nothing.
  ghost predicate OnlySequencer(s: State, s': State) {
    s' == s.(sequencer := s'.sequencer) && s'.sequencer.log == s.sequencer.log && Live(s'.sequencer)
  }

  lemma {:induction false} DeliverOne(c: S.Config, v: Layout, s: State, b: nat, k: nat) returns (s': State)
    requires S.Following(c, s.sequencer.log, s.sequencer.backups) && Live(s.sequencer)
    requires b in c.backups && k < |s.sequencer.log| && b in s.sequencer.backups
    requires ValidSpace(s.sequencer.backups[b]) && WellFormed(s.sequencer.log[k], |s.sequencer.backups[b].progress|)
    ensures NextStep(c, v, s, s', Sequence(S.Deliver(b, k))) && OnlySequencer(s, s')
    ensures s'.sequencer.progress == s.sequencer.progress && b in s'.sequencer.backups
    ensures s'.sequencer.backups[b] == Provide(s.sequencer.backups[b], s.sequencer.log[k]).space
  {
    var q := s.sequencer;
    var sp := Provide(q.backups[b], q.log[k]).space;
    s' := s.(sequencer := q.(backups := q.backups[b := sp],
                             acks := q.acks + if sp.position > q.backups[b].position then {(b, sp.position)} else {}));
  }

  lemma {:induction false} DeliverUpTo(c: S.Config, v: Layout, run: seq<State>, b: nat, k: nat) returns (run': seq<State>)
    requires ValidSystem(c, v) && IsRun(c, v, run) && Live(Last(run).sequencer)
    requires b in c.backups && k <= |Last(run).sequencer.log|
    ensures GoesOn(c, v, run, run') && OnlySequencer(Last(run), Last(run'))
    ensures Last(run').sequencer.progress == Last(run).sequencer.progress
    ensures b in Last(run).sequencer.backups && b in Last(run').sequencer.backups
    ensures ArrivedUp(Last(run).sequencer.backups[b], Last(run).sequencer.log, k, Last(run').sequencer.backups[b])
  {
    FollowingAt(c, v, run);
    if k == 0 {
      run' := run;
      ArrivedNone(Last(run).sequencer.backups[b], Last(run).sequencer.log);
    } else {
      var mid := DeliverUpTo(c, v, run, b, k - 1);
      var q := Last(mid).sequencer;
      ArrivedOneMore(Last(run).sequencer.backups[b], q.log, k - 1, q.backups[b]);
      FollowingAt(c, v, mid);
      var s' := DeliverOne(c, v, Last(mid), b, k - 1);
      OneMore(c, v, mid, s', Sequence(S.Deliver(b, k - 1)));
      run' := mid + [s'];
      OnlySequencerTwice(Last(run), Last(mid), s');
      GoesOnTwice(c, v, run, mid, run');
    }
  }

  lemma {:induction false} AckStep(c: S.Config, v: Layout, s: State, b: nat, p: nat) returns (s': State)
    requires Live(s.sequencer) && (b, p) in s.sequencer.acks && b in s.sequencer.progress
    requires forall i :: 0 <= i < |c.backups| ==> c.backups[i] in s.sequencer.progress
    ensures NextStep(c, v, s, s', Sequence(S.Acknowledge(b, p))) && OnlySequencer(s, s')
    ensures var progress := s.sequencer.progress;
            p >= progress[b] ==> s'.sequencer.progress == progress[b := p]
  {
    var q := s.sequencer;
    if p > q.progress[b] {
      var progress := q.progress[b := p];
      var r := S.UpdatedReplicated(c, q.replicated, |q.log|, progress);
      s' := s.(sequencer := q.(progress := progress, replicated := r,
                               propagated := q.propagated + (Shards(r) - Shards(q.replicated))));
    } else {
      s' := s;
    }
  }

  // What the invariant says of a backup's progress.
  lemma {:induction false} ProgressAt(c: S.Config, v: Layout, run: seq<State>)
    requires ValidSystem(c, v) && IsRun(c, v, run)
    ensures var q := Last(run).sequencer;
            && S.AcksHonest(c, q.acks, q.progress, q.backups)
            && S.ReplicatedRight(c, |q.log|, q.progress, q.replicated, q.propagated)
  {
    RunInv(c, v, run);
  }

  lemma {:induction false} AcknowledgeOne(c: S.Config, v: Layout, run: seq<State>, b: nat) returns (run': seq<State>)
    requires ValidSystem(c, v) && IsRun(c, v, run) && Live(Last(run).sequencer)
    requires b in c.backups && b in Last(run).sequencer.backups
    requires Last(run).sequencer.backups[b].position == |Last(run).sequencer.log| > 0
    ensures GoesOn(c, v, run, run') && OnlySequencer(Last(run), Last(run')) && b in Last(run).sequencer.progress
    ensures Last(run').sequencer.progress == Last(run).sequencer.progress[b := |Last(run).sequencer.log|]
  {
    AckReady(c, v, run, b);
    var s' := AckStep(c, v, Last(run), b, |Last(run).sequencer.log|);
    OneMore(c, v, run, s', Sequence(S.Acknowledge(b, |Last(run).sequencer.log|)));
    run' := run + [s'];
  }

  // The acknowledgement of everything is there, and says no less than what is known.
  lemma {:induction false} AckReady(c: S.Config, v: Layout, run: seq<State>, b: nat)
    requires ValidSystem(c, v) && IsRun(c, v, run) && b in c.backups && b in Last(run).sequencer.backups
    requires Last(run).sequencer.backups[b].position == |Last(run).sequencer.log| > 0
    ensures var q := Last(run).sequencer;
            && (b, |q.log|) in q.acks && b in q.progress && q.progress[b] <= |q.log|
            && forall i :: 0 <= i < |c.backups| ==> c.backups[i] in q.progress
  {
    RunKnown(c, v, run);
    ProgressAt(c, v, run);
  }

  // The first i backups are known to hold all metalogs.
  ghost predicate CaughtUp(c: S.Config, q: S.State, i: nat) {
    i <= |c.backups| && forall j :: 0 <= j < i ==> c.backups[j] in q.progress && q.progress[c.backups[j]] == |q.log|
  }

  lemma {:induction false} CatchUp(c: S.Config, v: Layout, run: seq<State>, i: nat) returns (run': seq<State>)
    requires ValidSystem(c, v) && IsRun(c, v, run) && Live(Last(run).sequencer) && Last(run).sequencer.log != []
    requires i <= |c.backups|
    ensures GoesOn(c, v, run, run') && OnlySequencer(Last(run), Last(run')) && CaughtUp(c, Last(run').sequencer, i)
  {
    if i == 0 {
      run' := run;
    } else {
      var one := CatchUp(c, v, run, i - 1);
      run' := CatchUpOne(c, v, one, c.backups[i - 1]);
      OneMoreCaughtUp(c, Last(one).sequencer, Last(run').sequencer, i);
      OnlySequencerTwice(Last(run), Last(one), Last(run'));
      GoesOnTwice(c, v, run, one, run');
    }
  }

  lemma {:induction false} OnlySequencerTwice(s: State, s1: State, s2: State)
    requires OnlySequencer(s, s1) && OnlySequencer(s1, s2)
    ensures OnlySequencer(s, s2)
  {
  }

  lemma {:induction false} OneMoreCaughtUp(c: S.Config, q: S.State, q': S.State, i: nat)
    requires 0 < i <= |c.backups| && CaughtUp(c, q, i - 1)
    requires q'.log == q.log && q'.progress == q.progress[c.backups[i - 1] := |q.log|]
    ensures CaughtUp(c, q', i)
  {
  }

  lemma {:induction false} CatchUpOne(c: S.Config, v: Layout, run: seq<State>, b: nat) returns (run': seq<State>)
    requires ValidSystem(c, v) && IsRun(c, v, run) && Live(Last(run).sequencer) && Last(run).sequencer.log != []
    requires b in c.backups
    ensures GoesOn(c, v, run, run') && OnlySequencer(Last(run), Last(run')) && b in Last(run).sequencer.progress
    ensures Last(run').sequencer.progress == Last(run).sequencer.progress[b := |Last(run).sequencer.log|]
  {
    var log := Last(run).sequencer.log;
    FollowingAt(c, v, run);
    var two := DeliverUpTo(c, v, run, b, |log|);
    ArrivedAll(Last(run).sequencer.backups[b], log, Last(two).sequencer.backups[b]);
    run' := AcknowledgeOne(c, v, two, b);
    OnlySequencerTwice(Last(run), Last(two), Last(run'));
    GoesOnTwice(c, v, run, two, run');
  }

  lemma {:induction false} AllSame(backups: seq<nat>, progress: map<nat, nat>, x: nat)
    requires backups != [] && forall i :: 0 <= i < |backups| ==> backups[i] in progress && progress[backups[i]] == x
    ensures R.ReplicatedOf(backups, progress) >= x
  {
    var a := R.Values(backups, progress);
    CountSame(a, x);
    R.RankIff(a, |backups| / 2, x);
  }

  lemma {:induction false} CountSame(a: seq<nat>, x: nat)
    requires forall i :: 0 <= i < |a| ==> a[i] == x
    ensures R.CountGE(a, x) == |a|
  {
    if a != [] {
      CountSame(a[..|a| - 1], x);
    }
  }

  /** As long as nothing is frozen, everything cut can be replicated and is then propagated. */
  lemma {:induction false} Replicate(c: S.Config, v: Layout, run: seq<State>) returns (run': seq<State>)
    requires ValidSystem(c, v) && IsRun(c, v, run) && Live(Last(run).sequencer) && c.backups != []
    ensures GoesOn(c, v, run, run') && OnlySequencer(Last(run), Last(run'))
    ensures Last(run').sequencer.replicated == |Last(run).sequencer.log|
    ensures AllPropagated(|Last(run).sequencer.log|, Last(run').sequencer.propagated)
  {
    if Last(run).sequencer.log == [] {
      run' := run;
    } else {
      run' := CatchUp(c, v, run, |c.backups|);
      AllSame(c.backups, Last(run').sequencer.progress, |Last(run).sequencer.log|);
    }
    ProgressAt(c, v, run');
    RunKnown(c, v, run');
  }

  // ------------------------------------------------------------------------
  // Storing and reporting

  // Only storages and what the primary knows of them have moved.
  ghost predicate OnlyStored(s: State, s': State) {
    && s' == s.(storages := s'.storages, reports := s'.reports, shardProgress := s'.shardProgress)
    && s'.shardProgress.Keys == s.shardProgress.Keys
    && forall pair :: pair in s.shardProgress ==> s.shardProgress[pair] <= s'.shardProgress[pair]
  }

  // Storage id takes entries of engine e.
  ghost predicate Takes(v: Layout, s: State, id: nat, e: nat) {
    && id in v.sourcesOf && id in s.storages && e in v.sourcesOf[id] && e in s.storages[id].progress
    && e < |s.producers| && (e, id) in s.shardProgress
    && forall i :: 0 <= i < |v.sourcesOf[id]| ==> v.sourcesOf[id][i] in s.storages[id].progress
  }

  lemma {:induction false} TakesAt(c: S.Config, v: Layout, run: seq<State>, id: nat, e: nat)
    requires ValidSystem(c, v) && IsRun(c, v, run) && e < c.shards && id in v.storagesOf[e]
    ensures Takes(v, Last(run), id, e)
  {
    RunInv(c, v, run);
    var s := Last(run);
    assert StorageRight(s.storages[id], v.sourcesOf[id], s.producers);
  }

  lemma {:induction false} StoreOneEntry(c: S.Config, v: Layout, s: State, id: nat, e: nat) returns (s': State)
    requires Takes(v, s, id, e) && s.storages[id].progress[e] < s.producers[e].next
    ensures NextStep(c, v, s, s', Store(id, e, s.storages[id].progress[e])) && OnlyStored(s, s')
    ensures s'.shardProgress == s.shardProgress && id in s'.storages && e in s'.storages[id].progress
    ensures s'.storages[id].progress[e] > s.storages[id].progress[e]
  {
    var st, l := s.storages[id], s.storages[id].progress[e];
    s' := s.(storages := s.storages[id := StoreEntry(st, e, l)]);
    assert (e, l) in st.pending + {(e, l)};
  }

  lemma {:induction false} StoreUpTo(c: S.Config, v: Layout, run: seq<State>, id: nat, e: nat, x: nat)
      returns (run': seq<State>)
    requires ValidSystem(c, v) && IsRun(c, v, run) && e < c.shards && id in v.storagesOf[e]
    requires e < |Last(run).producers| && x <= Last(run).producers[e].next
    ensures GoesOn(c, v, run, run') && OnlyStored(Last(run), Last(run')) && Takes(v, Last(run'), id, e)
    ensures Last(run').storages[id].progress[e] >= x
    decreases if id in Last(run).storages && e in Last(run).storages[id].progress
              then x - Last(run).storages[id].progress[e] else 0
  {
    TakesAt(c, v, run, id, e);
    var l := Last(run).storages[id].progress[e];
    if l >= x {
      run' := run;
    } else {
      var s' := StoreOneEntry(c, v, Last(run), id, e);
      OneMore(c, v, run, s', Store(id, e, l));
      run' := StoreUpTo(c, v, run + [s'], id, e, x);
      OnlyStoredTwice(Last(run), s', Last(run'));
      GoesOnTwice(c, v, run, run + [s'], run');
    }
  }

  lemma {:induction false} ReportSteps(c: S.Config, v: Layout, s: State, id: nat, e: nat) returns (s1: State, s2: State)
    requires Takes(v, s, id, e) && Live(s.sequencer)
    ensures NextStep(c, v, s, s1, Report(id))
    ensures NextStep(c, v, s1, s2, ReceiveReport(id, ReportOf(s.storages[id], v.sourcesOf[id])))
    ensures OnlyStored(s, s2) && s2.storages == s.storages && s2.shardProgress[(e, id)] >= s.storages[id].progress[e]
  {
    var sources := v.sourcesOf[id];
    var report := ReportOf(s.storages[id], sources);
    s1 := s.(reports := s.reports + {(id, report)});
    s2 := s1.(shardProgress := Raised(s.shardProgress, id, sources, report, |report|));
    RaisedTakesIn(s.shardProgress, id, sources, report, |report|);
    assert sources[..|report|] == sources && report[..|report|] == report;
    var i :| 0 <= i < |sources| && sources[i] == e;
    assert report[i] <= s2.shardProgress[(sources[i], id)];
  }

  // One storage has stored the first x entries of an engine and said so.
  lemma {:induction false} StoreAndReport(c: S.Config, v: Layout, run: seq<State>, id: nat, e: nat, x: nat)
      returns (run': seq<State>)
    requires ValidSystem(c, v) && IsRun(c, v, run) && Live(Last(run).sequencer) && e < c.shards && id in v.storagesOf[e]
    requires e < |Last(run).producers| && x <= Last(run).producers[e].next
    ensures GoesOn(c, v, run, run') && OnlyStored(Last(run), Last(run'))
    ensures (e, id) in Last(run').shardProgress && Last(run').shardProgress[(e, id)] >= x
  {
    var one := StoreUpTo(c, v, run, id, e, x);
    var s := Last(one);
    var s1, s2 := ReportSteps(c, v, s, id, e);
    OneMore(c, v, one, s1, Report(id));
    OneMore(c, v, one + [s1], s2, ReceiveReport(id, ReportOf(s.storages[id], v.sourcesOf[id])));
    run' := one + [s1] + [s2];
    OnlyStoredTwice(Last(run), s, s2);
    GoesOnTwice(c, v, one, one + [s1], run');
    GoesOnTwice(c, v, run, one, run');
  }

  lemma {:induction false} OnlyStoredTwice(s: State, s1: State, s2: State)
    requires OnlyStored(s, s1) && OnlyStored(s1, s2)
    ensures OnlyStored(s, s2)
  {
  }

  // The first i storages of an engine have reported its first x entries.
  ghost predicate ReportedBy(v: Layout, p: ShardProgress, e: nat, x: nat, i: nat) {
    && e < |v.storagesOf| && i <= |v.storagesOf[e]|
    && forall j :: 0 <= j < i ==> (e, v.storagesOf[e][j]) in p && p[(e, v.storagesOf[e][j])] >= x
  }

  lemma {:induction false} AllStore(c: S.Config, v: Layout, run: seq<State>, e: nat, x: nat, i: nat)
      returns (run': seq<State>)
    requires ValidSystem(c, v) && IsRun(c, v, run) && Live(Last(run).sequencer) && e < c.shards
    requires e < |Last(run).producers| && x <= Last(run).producers[e].next && i <= |v.storagesOf[e]|
    ensures GoesOn(c, v, run, run') && OnlyStored(Last(run), Last(run')) && ReportedBy(v, Last(run').shardProgress, e, x, i)
  {
    if i == 0 {
      run' := run;
    } else {
      var one := AllStore(c, v, run, e, x, i - 1);
      run' := StoreAndReport(c, v, one, v.storagesOf[e][i - 1], e, x);
      OnlyStoredTwice(Last(run), Last(one), Last(run'));
      OneMoreReported(v, Last(one).shardProgress, Last(run').shardProgress, e, x, i);
      GoesOnTwice(c, v, run, one, run');
    }
  }

  lemma {:induction false} OneMoreReported(v: Layout, p: ShardProgress, p': ShardProgress, e: nat, x: nat, i: nat)
    requires i > 0 && ReportedBy(v, p, e, x, i - 1) && i <= |v.storagesOf[e]| && p'.Keys == p.Keys
    requires forall pair :: pair in p ==> p[pair] <= p'[pair]
    requires (e, v.storagesOf[e][i - 1]) in p' && p'[(e, v.storagesOf[e][i - 1])] >= x
    ensures ReportedBy(v, p', e, x, i)
  {
  }

  // ------------------------------------------------------------------------
  // Cutting

  // The sequencer has cut at most once more.
  ghost predicate OnlyCut(s: State, s': State) {
    && s' == s.(sequencer := s'.sequencer, lastCut := s'.lastCut)
    && s.sequencer.log <= s'.sequencer.log && Live(s'.sequencer)
  }

  lemma {:induction false} CutsAt(c: S.Config, v: Layout, run: seq<State>)
    requires ValidSystem(c, v) && IsRun(c, v, run)
    ensures CutsRight(v, Last(run).shardProgress, Last(run).sequencer.log, Last(run).lastCut)
  {
    RunInv(c, v, run);
  }

  lemma {:induction false} LineReaches(v: Layout, p: ShardProgress, e: nat, x: nat)
    requires ValidLayout(v) && HasPairs(v, p) && e < |v.storagesOf| && ReportedBy(v, p, e, x, |v.storagesOf[e]|)
    ensures CutLine(v, p)[e] >= x
  {
    var r := MinProgress(p, e, v.storagesOf[e]);
    var id :| id in v.storagesOf[e] && r == p[(e, id)];
  }

  lemma {:induction false} CutStep(c: S.Config, v: Layout, s: State) returns (s': State)
    requires CutsRight(v, s.shardProgress, s.sequencer.log, s.lastCut) && c.shards == |v.storagesOf|
    requires Live(s.sequencer) && s.sequencer.replicated == |s.sequencer.log|
    requires s.lastCut != CutLine(v, s.shardProgress)
    ensures NextStep(c, v, s, s', MarkCut) && OnlyCut(s, s')
    ensures CutHere(s'.sequencer.log, CutLine(v, s.shardProgress))
  {
    var line, q := CutLine(v, s.shardProgress), s.sequencer;
    var m := CutBetween(s.lastCut, line, |q.log|, Total(q.log, |q.log|));
    CutContinues(q.log, s.lastCut, line);
    s' := s.(sequencer := q.(log := q.log + [m]), lastCut := line);
  }

  lemma {:induction false} CutNow(c: S.Config, v: Layout, run: seq<State>, e: nat, x: nat) returns (run': seq<State>)
    requires ValidSystem(c, v) && IsRun(c, v, run) && Live(Last(run).sequencer) && e < c.shards
    requires Last(run).sequencer.replicated == |Last(run).sequencer.log|
    requires ReportedBy(v, Last(run).shardProgress, e, x, |v.storagesOf[e]|)
    ensures GoesOn(c, v, run, run') && OnlyCut(Last(run), Last(run'))
    ensures var log := Last(run').sequencer.log; ShardStart(log, |log|, e) >= x
  {
    CutsAt(c, v, run);
    var s := Last(run);
    LineReaches(v, s.shardProgress, e, x);
    if s.lastCut == CutLine(v, s.shardProgress) {
      run' := run;
    } else {
      var s' := CutStep(c, v, s);
      OneMore(c, v, run, s', MarkCut);
      run' := run + [s'];
    }
  }

  // ------------------------------------------------------------------------
  // Delivery

  // Every metalog may be received by engines and storages.
  ghost predicate AllPublished(q: S.State) {
    AllPropagated(|q.log|, q.propagated)
  }

  lemma {:induction false} EngineAt(c: S.Config, v: Layout, run: seq<State>, e: nat)
    requires ValidSystem(c, v) && IsRun(c, v, run) && e < c.shards
    ensures e < |Last(run).producers|
    ensures FollowsLite(Last(run).producers[e].space, Last(run).sequencer.log, {e}, c.shards)
  {
    RunInv(c, v, run);
  }

  // An engine receives a metalog, if that does not abort it.
  lemma {:induction false} EngineTries(s: State, e: nat, k: nat) returns (s': State)
    requires e < |s.producers| && k < |s.sequencer.log| && AllPublished(s.sequencer)
    requires ValidSpace(s.producers[e].space) && WellFormed(s.sequencer.log[k], |s.producers[e].space.progress|)
    ensures DoToEngine(s, s', e, k)
    ensures !s'.aborted ==> s' == s.(producers := s'.producers) && e < |s'.producers|
    ensures !s'.aborted ==> s'.producers[e].space == Provide(s.producers[e].space, s.sequencer.log[k]).space
  {
    var p := s.producers[e];
    var o := Provide(p.space, s.sequencer.log[k]);
    var t := Take(p.pending, Deliveries(o.calls));
    s' := if t.Missing? then s.(aborted := true)
          else s.(producers := s.producers[e := p.(space := o.space, pending := t.rest,
                                                   results := p.results + Deliveries(o.calls))]);
  }

  lemma {:induction false} EngineOne(c: S.Config, v: Layout, s: State, e: nat, k: nat) returns (s': State)
    requires ValidSystem(c, v) && Inv(c, v, s) && e < |s.producers| && k < |s.sequencer.log| && AllPublished(s.sequencer)
    requires ValidSpace(s.producers[e].space) && WellFormed(s.sequencer.log[k], |s.producers[e].space.progress|)
    ensures NextStep(c, v, s, s', ToEngine(e, k)) && s' == s.(producers := s'.producers)
    ensures e < |s'.producers| && s'.producers[e].space == Provide(s.producers[e].space, s.sequencer.log[k]).space
  {
    s' := EngineTries(s, e, k);
    ToEngineInv(c, v, s, s', e, k);
  }

  lemma {:induction false} EngineUpTo(c: S.Config, v: Layout, run: seq<State>, e: nat, k: nat) returns (run': seq<State>)
    requires ValidSystem(c, v) && IsRun(c, v, run) && AllPublished(Last(run).sequencer)
    requires e < c.shards && k <= |Last(run).sequencer.log|
    ensures GoesOn(c, v, run, run') && Last(run') == Last(run).(producers := Last(run').producers)
    ensures e < |Last(run).producers| && e < |Last(run').producers|
    ensures ArrivedUp(Last(run).producers[e].space, Last(run).sequencer.log, k, Last(run').producers[e].space)
  {
    EngineAt(c, v, run, e);
    if k == 0 {
      run' := run;
      ArrivedNone(Last(run).producers[e].space, Last(run).sequencer.log);
    } else {
      var mid := EngineUpTo(c, v, run, e, k - 1);
      ArrivedOneMore(Last(run).producers[e].space, Last(run).sequencer.log, k - 1, Last(mid).producers[e].space);
      RunInv(c, v, mid);
      var s' := EngineOne(c, v, Last(mid), e, k - 1);
      OneMore(c, v, mid, s', ToEngine(e, k - 1));
      run' := mid + [s'];
      GoesOnTwice(c, v, run, mid, run');
    }
  }

  // A storage receives a metalog, if that does not abort it.
  lemma {:induction false} StorageTries(s: State, id: nat, k: nat) returns (s': State)
    requires id in s.storages && k < |s.sequencer.log| && AllPublished(s.sequencer)
    requires ValidSpace(s.storages[id].space) && WellFormed(s.sequencer.log[k], |s.storages[id].space.progress|)
    ensures DoToStorage(s, s', id, k)
    ensures !s'.aborted ==> s' == s.(storages := s'.storages) && id in s'.storages
    ensures !s'.aborted ==> s'.storages[id].space == Provide(s.storages[id].space, s.sequencer.log[k]).space
  {
    var st := s.storages[id];
    var o := Provide(st.space, s.sequencer.log[k]);
    var t := Take(st.pending, Deliveries(o.calls));
    s' := if t.Missing? then s.(aborted := true)
          else s.(storages := s.storages[id := st.(space := o.space, pending := t.rest,
                                                   sequenced := st.sequenced + Deliveries(o.calls))]);
  }

  lemma {:induction false} StorageOne(c: S.Config, v: Layout, s: State, id: nat, k: nat) returns (s': State)
    requires ValidSystem(c, v) && Inv(c, v, s) && id in v.sourcesOf && id in s.storages && k < |s.sequencer.log|
    requires AllPublished(s.sequencer)
    requires ValidSpace(s.storages[id].space) && WellFormed(s.sequencer.log[k], |s.storages[id].space.progress|)
    ensures NextStep(c, v, s, s', ToStorage(id, k)) && s' == s.(storages := s'.storages)
    ensures id in s'.storages && s'.storages[id].space == Provide(s.storages[id].space, s.sequencer.log[k]).space
  {
    s' := StorageTries(s, id, k);
    ToStorageInv(c, v, s, s', id, k);
  }

  lemma {:induction false} StorageUpTo(c: S.Config, v: Layout, run: seq<State>, id: nat, k: nat) returns (run': seq<State>)
    requires ValidSystem(c, v) && IsRun(c, v, run) && AllPublished(Last(run).sequencer)
    requires id in v.sourcesOf && k <= |Last(run).sequencer.log|
    ensures GoesOn(c, v, run, run') && Last(run') == Last(run).(storages := Last(run').storages)
    ensures id in Last(run).storages && id in Last(run').storages
    ensures ArrivedUp(Last(run).storages[id].space, Last(run).sequencer.log, k, Last(run').storages[id].space)
  {
    RunStorage(c, v, run, id);
    if k == 0 {
      run' := run;
      ArrivedNone(Last(run).storages[id].space, Last(run).sequencer.log);
    } else {
      var mid := StorageUpTo(c, v, run, id, k - 1);
      ArrivedOneMore(Last(run).storages[id].space, Last(run).sequencer.log, k - 1, Last(mid).storages[id].space);
      RunInv(c, v, mid);
      var s' := StorageOne(c, v, Last(mid), id, k - 1);
      OneMore(c, v, mid, s', ToStorage(id, k - 1));
      run' := mid + [s'];
      GoesOnTwice(c, v, run, mid, run');
    }
  }

  // ------------------------------------------------------------------------
  // The whole way

  // The entry is cut and everything cut is published.
  ghost predicate CutAndPublished(s: State, e: nat, l: nat) {
    var log := s.sequencer.log;
    l < ShardStart(log, |log|, e) && AllPublished(s.sequencer)
  }

  lemma {:induction false} GetCut(c: S.Config, v: Layout, run: seq<State>, e: nat, l: nat) returns (run': seq<State>)
    requires ValidSystem(c, v) && IsRun(c, v, run) && Live(Last(run).sequencer) && c.backups != []
    requires e < c.shards && e < |Last(run).producers| && l < Last(run).producers[e].next
    ensures GoesOn(c, v, run, run') && CutAndPublished(Last(run'), e, l)
  {
    var stored := AllStore(c, v, run, e, l + 1, |v.storagesOf[e]|);
    var ready := Replicate(c, v, stored);
    var cut := CutNow(c, v, ready, e, l + 1);
    run' := Replicate(c, v, cut);
    GoesOnTwice(c, v, run, stored, ready);
    GoesOnTwice(c, v, run, ready, cut);
    GoesOnTwice(c, v, run, cut, run');
  }

  /** In every run, as long as no sequencer is frozen and there are backups, every append of every engine can
      still go through: the run can go on so that the entry is stored by all storages of the engine, cut,
      replicated and propagated, and handed to the engine and to any of its storages. */
  lemma {:induction false} AppendsGoThrough(c: S.Config, v: Layout, run: seq<State>, e: nat, l: nat, id: nat)
      returns (run': seq<State>)
    requires ValidSystem(c, v) && IsRun(c, v, run) && Live(Last(run).sequencer) && c.backups != []
    requires e < c.shards && e < |Last(run).producers| && l < Last(run).producers[e].next && id in v.storagesOf[e]
    ensures GoesOn(c, v, run, run') && CutAndPublished(Last(run'), e, l)
    ensures var s := Last(run');
            && e < |s.producers| && e < |s.producers[e].space.progress| && l < s.producers[e].space.progress[e]
            && id in s.storages && e < |s.storages[id].space.progress| && l < s.storages[id].space.progress[e]
  {
    var cut := GetCut(c, v, run, e, l);
    var log := Last(cut).sequencer.log;
    EngineAt(c, v, cut, e);
    var engine := EngineUpTo(c, v, cut, e, |log|);
    ArrivedAll(Last(cut).producers[e].space, log, Last(engine).producers[e].space);
    RunStorage(c, v, engine, id);
    run' := StorageUpTo(c, v, engine, id, |log|);
    GoesOnTwice(c, v, run, cut, engine);
    GoesOnTwice(c, v, run, engine, run');
    ArrivedAll(Last(engine).storages[id].space, log, Last(run').storages[id].space);
  }

  /** Without backups nothing goes through: in every run with a single sequencer, until the view is sealed, at
      most one metalog is cut, none is propagated, and no engine or storage is handed anything. */
  lemma {:induction false} AloneNothingGoesThrough(c: S.Config, v: Layout, run: seq<State>)
    requires ValidSystem(c, v) && IsRun(c, v, run) && c.backups == [] && Last(run).sequencer.seal.Open?
    ensures var s := Last(run);
            && s.sequencer.propagated == {} && |s.sequencer.log| <= 1
            && (forall e :: 0 <= e < |s.producers| ==> s.producers[e].results == [])
            && (forall id :: id in v.sourcesOf ==> id in s.storages && s.storages[id].sequenced == [])
  {
    ProgressAt(c, v, run);
    N.RunWithin(c, v, run);
    NodesAt(c, v, run);
  }

  lemma {:induction false} NodesAt(c: S.Config, v: Layout, run: seq<State>)
    requires ValidSystem(c, v) && IsRun(c, v, run)
    ensures NodesFollow(v, Last(run).sequencer.log, Last(run).producers, Last(run).storages)
  {
    RunInv(c, v, run);
  }
}
