/**
 Engines, storages and the sequencer together.

 Engines append, storages store and report contiguous progress, the primary turns
 the reports into cuts, and cuts come back to engines and storages.  Every message
 may be delayed, reordered and repeated.  `aborted` records that an OnNewLogs loop
 met an entry it does not have.
 */
module Durability {
  import opened MetaLogs
  import opened LogSpaces
  import opened LiteMode
  import opened Layouts
  import opened Primaries
  import opened Pending
  import S = Sequencing

  datatype Producer = Producer(space: Space, next: nat, pending: set<LocalId>, results: seq<Delivery>)

  datatype Storage = Storage(space: Space, progress: map<nat, nat>, pending: set<LocalId>, sequenced: seq<Delivery>)

  datatype State = State(
    sequencer: S.State,
    shardProgress: ShardProgress,
    lastCut: seq<nat>,
    producers: seq<Producer>,
    storages: map<nat, Storage>,
    reports: set<(nat, seq<nat>)>,
    aborted: bool)

  ghost predicate ValidSystem(c: S.Config, v: Layout) {
    S.ValidConfig(c) && ValidLayout(v) && c.shards == |v.storagesOf|
  }

  // ------------------------------------------------------------------------
  // What single nodes do

  // LogProducer::LocalAppend
  function LocalAppend(p: Producer, e: nat): Producer {
    p.(next := p.next + 1, pending := p.pending + {(e, p.next)})
  }

  // LogStorage::Store, for an engine this storage is a storage of
  function StoreEntry(st: Storage, e: nat, l: nat): Storage
    requires e in st.progress
  {
    var pending := st.pending + {(e, l)};
    st.(pending := pending, progress := st.progress[e := Contiguous(pending, e, st.progress[e])])
  }

  // LogStorage::GrabShardProgressForSending
  function ReportOf(st: Storage, sources: seq<nat>): seq<nat>
    requires forall i :: 0 <= i < |sources| ==> sources[i] in st.progress
  {
    seq(|sources|, i requires 0 <= i < |sources| => st.progress[sources[i]])
  }

  // ------------------------------------------------------------------------
  // Steps

  datatype Step =
    | Sequence(step: S.Step)
    | MarkCut
    | Append(engine: nat)
    | Store(storage: nat, engine: nat, local: nat)
    | Report(storage: nat)
    | ReceiveReport(storage: nat, report: seq<nat>)
    | ToEngine(engine: nat, k: nat)
    | ToStorage(storage: nat, k: nat)

  ghost predicate Init(c: S.Config, v: Layout, s: State) {
    && S.Init(c, s.sequencer)
    && s.shardProgress == NoProgress(v) && s.lastCut == seq(c.shards, _ => 0)
    && |s.producers| == c.shards
    && (forall e :: 0 <= e < c.shards ==> s.producers[e] == Producer(Fresh(Lite, {e}, c.shards), 0, {}, []))
    && s.storages.Keys == v.sourcesOf.Keys
    && (forall id :: id in v.sourcesOf ==>
          s.storages[id] == Storage(Fresh(Lite, S.Members(v.sourcesOf[id]), c.shards),
                                    map e | e in v.sourcesOf[id] :: 0, {}, []))
    && s.reports == {} && !s.aborted
  }

  // A metalog that a node outside the sequencers may receive: propagated, or in the sealed tail.
  ghost predicate Published(q: S.State, k: nat) {
    && k < |q.log|
    && (k in q.propagated || (q.seal.Sealed? && exists j :: 0 <= j < |q.seal.tail| && q.seal.tail[j].seqnum == k))
  }

  ghost predicate DoMarkCut(c: S.Config, v: Layout, s: State, s': State) {
    && ValidLayout(v) && HasPairs(v, s.shardProgress)
    && var line := CutLine(v, s.shardProgress);
       && Below(s.lastCut, line) && s.lastCut != line
       && var m := CutBetween(s.lastCut, line, |s.sequencer.log|, Total(s.sequencer.log, |s.sequencer.log|));
          && S.DoCut(c, s.sequencer, s'.sequencer, m)
          && s' == s.(sequencer := s'.sequencer, lastCut := line)
  }

  ghost predicate DoReceiveReport(v: Layout, s: State, s': State, id: nat, report: seq<nat>) {
    && (id, report) in s.reports
    && if s.sequencer.primaryFrozen then s' == s
       else
         && id in v.sourcesOf && |report| == |v.sourcesOf[id]|
         && s' == s.(shardProgress := Raised(s.shardProgress, id, v.sourcesOf[id], report, |report|))
  }

  ghost predicate DoToEngine(s: State, s': State, e: nat, k: nat) {
    && e < |s.producers| && Published(s.sequencer, k)
    && var p, m := s.producers[e], s.sequencer.log[k];
       && ValidSpace(p.space) && WellFormed(m, |p.space.progress|)
       && var o := Provide(p.space, m);
          match Take(p.pending, Deliveries(o.calls))
          case Missing => s' == s.(aborted := true)
          case Taken(rest) =>
            s' == s.(producers := s.producers[e := p.(space := o.space, pending := rest,
                                                      results := p.results + Deliveries(o.calls))])
  }

  ghost predicate DoToStorage(s: State, s': State, id: nat, k: nat) {
    && id in s.storages && Published(s.sequencer, k)
    && var st, m := s.storages[id], s.sequencer.log[k];
       && ValidSpace(st.space) && WellFormed(m, |st.space.progress|)
       && var o := Provide(st.space, m);
          match Take(st.pending, Deliveries(o.calls))
          case Missing => s' == s.(aborted := true)
          case Taken(rest) =>
            s' == s.(storages := s.storages[id := st.(space := o.space, pending := rest,
                                                      sequenced := st.sequenced + Deliveries(o.calls))])
  }

  ghost predicate NextStep(c: S.Config, v: Layout, s: State, s': State, step: Step) {
    match step
    case Sequence(sub) => !sub.Cut? && S.NextStep(c, s.sequencer, s'.sequencer, sub) && s' == s.(sequencer := s'.sequencer)
    case MarkCut => DoMarkCut(c, v, s, s')
    case Append(e) => e < |s.producers| && s' == s.(producers := s.producers[e := LocalAppend(s.producers[e], e)])
    case Store(id, e, l) =>
      && id in v.sourcesOf && id in s.storages && e in v.sourcesOf[id] && e in s.storages[id].progress
      && e < |s.producers| && l < s.producers[e].next
      && s' == s.(storages := s.storages[id := StoreEntry(s.storages[id], e, l)])
    case Report(id) =>
      && id in v.sourcesOf && id in s.storages
      && (forall i :: 0 <= i < |v.sourcesOf[id]| ==> v.sourcesOf[id][i] in s.storages[id].progress)
      && s' == s.(reports := s.reports + {(id, ReportOf(s.storages[id], v.sourcesOf[id]))})
    case ReceiveReport(id, report) => DoReceiveReport(v, s, s', id, report)
    case ToEngine(e, k) => DoToEngine(s, s', e, k)
    case ToStorage(id, k) => DoToStorage(s, s', id, k)
  }

  ghost predicate Next(c: S.Config, v: Layout, s: State, s': State) {
    exists step :: NextStep(c, v, s, s', step)
  }

  ghost predicate IsRun(c: S.Config, v: Layout, run: seq<State>) {
    && run != []
    && if |run| == 1 then Init(c, v, run[0])
       else IsRun(c, v, run[..|run| - 1]) && Next(c, v, run[|run| - 2], run[|run| - 1])
  }

  // ------------------------------------------------------------------------
  // Invariant

  ghost predicate FollowsLite(sp: Space, log: seq<MetaLog>, interested: set<nat>, n: nat) {
    sp.mode.Lite? && sp.interested == interested && |sp.progress| == n && Follows(sp, log) && Settled(sp, log)
  }

  // A node has been handed exactly what the cuts up to its position hold for its shards.
  ghost predicate NodeFollows(sp: Space, handed: seq<Delivery>, log: seq<MetaLog>, interested: set<nat>, n: nat) {
    FollowsLite(sp, log, interested, n) && handed == Replay(log, interested, 0, sp.position)
  }

  ghost predicate NodesFollow(v: Layout, log: seq<MetaLog>, producers: seq<Producer>, storages: map<nat, Storage>) {
    && |producers| == |v.storagesOf|
    && (forall e :: 0 <= e < |producers| ==>
          NodeFollows(producers[e].space, producers[e].results, log, {e}, |v.storagesOf|))
    && (forall id :: id in v.sourcesOf ==>
          && id in storages
          && NodeFollows(storages[id].space, storages[id].sequenced, log, S.Members(v.sourcesOf[id]), |v.storagesOf|))
  }

  // Everything appended and not yet sequenced is still waiting at the engine.
  ghost predicate ProducerRight(p: Producer, e: nat) {
    && e < |p.space.progress|
    && forall l: nat :: p.space.progress[e] <= l < p.next ==> (e, l) in p.pending
  }

  // A storage has stored every entry below its progress and still has those not yet sequenced.
  ghost predicate StorageRight(st: Storage, sources: seq<nat>, producers: seq<Producer>) {
    && (forall e :: e in sources ==>
          && e < |producers| == |st.space.progress| && e in st.progress && st.progress[e] <= producers[e].next
          && forall l: nat :: st.space.progress[e] <= l < st.progress[e] ==> (e, l) in st.pending)
    && (forall id: LocalId :: id in st.pending ==> id.0 < |producers| && id.1 < producers[id.0].next)
  }

  ghost predicate NodesRight(v: Layout, producers: seq<Producer>, storages: map<nat, Storage>) {
    && storages.Keys == v.sourcesOf.Keys
    && (forall e :: 0 <= e < |producers| ==> ProducerRight(producers[e], e))
    && (forall id :: id in v.sourcesOf ==> id in storages && StorageRight(storages[id], v.sourcesOf[id], producers))
  }

  // The primary never knows more of a storage's progress than the storage itself.
  ghost predicate PrimaryRight(v: Layout, p: ShardProgress, reports: set<(nat, seq<nat>)>,
                               storages: map<nat, Storage>) {
    && HasPairs(v, p)
    && (forall e, id :: 0 <= e < |v.storagesOf| && id in v.storagesOf[e] ==>
          id in storages && e in storages[id].progress && p[(e, id)] <= storages[id].progress[e])
    && (forall id, report :: (id, report) in reports ==>
          && id in v.sourcesOf && id in storages && |report| == |v.sourcesOf[id]|
          && forall i :: 0 <= i < |report| ==>
               v.sourcesOf[id][i] in storages[id].progress && report[i] <= storages[id].progress[v.sourcesOf[id][i]])
  }

  ghost predicate CutsRight(v: Layout, p: ShardProgress, log: seq<MetaLog>, lastCut: seq<nat>) {
    && ValidLayout(v) && HasPairs(v, p)
    && |lastCut| == |v.storagesOf|
    && CutHere(log, lastCut) && Below(lastCut, CutLine(v, p))
  }

  ghost predicate SequencerRight(c: S.Config, q: S.State) {
    S.Following(c, q.log, q.backups) && S.Inv(c, q)
  }

  ghost predicate Inv(c: S.Config, v: Layout, s: State) {
    && SequencerRight(c, s.sequencer)
    && CutsRight(v, s.shardProgress, s.sequencer.log, s.lastCut)
    && PrimaryRight(v, s.shardProgress, s.reports, s.storages)
    && NodesFollow(v, s.sequencer.log, s.producers, s.storages)
    && NodesRight(v, s.producers, s.storages)
    && !s.aborted
  }

  lemma {:induction false} InitInv(c: S.Config, v: Layout, s: State)
    requires ValidSystem(c, v) && Init(c, v, s)
    ensures Inv(c, v, s)
  {
    S.InitInv(c, s.sequencer);
    assert SequencerRight(c, s.sequencer);
    InitNodesFollow(c, v, s);
    InitNodesRight(c, v, s);
    InitPrimary(c, v, s);
  }

  lemma {:induction false} InitNodesFollow(c: S.Config, v: Layout, s: State)
    requires ValidSystem(c, v) && Init(c, v, s)
    ensures NodesFollow(v, [], s.producers, s.storages)
  {
    forall e | 0 <= e < c.shards
      ensures NodeFollows(s.producers[e].space, s.producers[e].results, [], {e}, c.shards)
    {
      FreshNodeFollows({e}, c.shards);
    }
    forall id | id in v.sourcesOf
      ensures NodeFollows(s.storages[id].space, s.storages[id].sequenced, [], S.Members(v.sourcesOf[id]), c.shards)
    {
      forall e | e in S.Members(v.sourcesOf[id])
        ensures e < c.shards
      {
        assert e in v.sourcesOf[id];
      }
      FreshNodeFollows(S.Members(v.sourcesOf[id]), c.shards);
    }
  }

  lemma {:induction false} FreshNodeFollows(interested: set<nat>, n: nat)
    requires forall e :: e in interested ==> e < n
    ensures NodeFollows(Fresh(Lite, interested, n), [], [], interested, n)
  {
    FreshFollows(Lite, interested, n, []);
  }

  lemma {:induction false} InitNodesRight(c: S.Config, v: Layout, s: State)
    requires ValidSystem(c, v) && Init(c, v, s)
    ensures NodesRight(v, s.producers, s.storages)
  {
    forall id | id in v.sourcesOf
      ensures StorageRight(s.storages[id], v.sourcesOf[id], s.producers)
    {
      FreshStorageRight(s.storages[id], v.sourcesOf[id], c.shards, s.producers);
    }
  }

  lemma {:induction false} FreshStorageRight(st: Storage, sources: seq<nat>, n: nat, producers: seq<Producer>)
    requires st == Storage(Fresh(Lite, S.Members(sources), n), map e | e in sources :: 0, {}, [])
    requires |producers| == n && forall e :: e in sources ==> e < n
    ensures StorageRight(st, sources, producers)
  {
  }

  lemma {:induction false} InitPrimary(c: S.Config, v: Layout, s: State)
    requires ValidSystem(c, v) && Init(c, v, s)
    ensures PrimaryRight(v, s.shardProgress, s.reports, s.storages)
    ensures CutsRight(v, s.shardProgress, s.sequencer.log, s.lastCut)
  {
  }

  // ------------------------------------------------------------------------
  // Cuts

  lemma {:induction false} ReplayStable(cuts: seq<MetaLog>, m: MetaLog, heard: set<nat>, a: nat, b: nat)
    requires Matched(cuts) && Matched(cuts + [m]) && b <= |cuts|
    ensures Replay(cuts + [m], heard, a, b) == Replay(cuts, heard, a, b)
  {
    if a < b {
      ReplayStable(cuts, m, heard, a, b - 1);
    }
  }

  lemma {:induction false} NodeFollowsMore(sp: Space, handed: seq<Delivery>, log: seq<MetaLog>, m: MetaLog,
                                           interested: set<nat>, n: nat)
    requires NodeFollows(sp, handed, log, interested, n) && Chain(log + [m], n)
    ensures NodeFollows(sp, handed, log + [m], interested, n)
  {
    FollowsMore(sp, log, m);
    ReplayStable(log, m, interested, 0, sp.position);
  }

  lemma {:induction false} NodesFollowMore(v: Layout, log: seq<MetaLog>, m: MetaLog,
                                           producers: seq<Producer>, storages: map<nat, Storage>)
    requires NodesFollow(v, log, producers, storages) && Chain(log + [m], |v.storagesOf|)
    ensures NodesFollow(v, log + [m], producers, storages)
  {
    forall e | 0 <= e < |producers|
      ensures NodeFollows(producers[e].space, producers[e].results, log + [m], {e}, |v.storagesOf|)
    {
      NodeFollowsMore(producers[e].space, producers[e].results, log, m, {e}, |v.storagesOf|);
    }
    forall id | id in v.sourcesOf
      ensures NodeFollows(storages[id].space, storages[id].sequenced, log + [m],
                          S.Members(v.sourcesOf[id]), |v.storagesOf|)
    {
      NodeFollowsMore(storages[id].space, storages[id].sequenced, log, m,
                      S.Members(v.sourcesOf[id]), |v.storagesOf|);
    }
  }

  lemma {:induction false} MarkCutInv(c: S.Config, v: Layout, s: State, s': State)
    requires ValidSystem(c, v) && Inv(c, v, s) && DoMarkCut(c, v, s, s')
    ensures Inv(c, v, s')
  {
    var line := CutLine(v, s.shardProgress);
    var log := s.sequencer.log;
    var m := CutBetween(s.lastCut, line, |log|, Total(log, |log|));
    CutContinues(log, s.lastCut, line);
    assert S.NextStep(c, s.sequencer, s'.sequencer, S.Cut(m));
    S.StepFollowing(c, s.sequencer, s'.sequencer, S.Cut(m));
    S.StepInv(c, s.sequencer, s'.sequencer, S.Cut(m));
    NodesFollowMore(v, log, m, s.producers, s.storages);
  }

  // ------------------------------------------------------------------------
  // Appends, stores and reports

  lemma {:induction false} FollowOneProducer(v: Layout, log: seq<MetaLog>, producers: seq<Producer>,
                                             storages: map<nat, Storage>, e: nat, p: Producer)
    requires NodesFollow(v, log, producers, storages) && e < |producers|
    requires NodeFollows(p.space, p.results, log, {e}, |v.storagesOf|)
    ensures NodesFollow(v, log, producers[e := p], storages)
  {
  }

  lemma {:induction false} FollowOneStorage(v: Layout, log: seq<MetaLog>, producers: seq<Producer>,
                                            storages: map<nat, Storage>, id: nat, st: Storage)
    requires NodesFollow(v, log, producers, storages) && id in v.sourcesOf
    requires NodeFollows(st.space, st.sequenced, log, S.Members(v.sourcesOf[id]), |v.storagesOf|)
    ensures NodesFollow(v, log, producers, storages[id := st])
  {
  }

  lemma {:induction false} OneProducerRight(v: Layout, producers: seq<Producer>, storages: map<nat, Storage>,
                                            e: nat, p: Producer)
    requires NodesRight(v, producers, storages) && e < |producers|
    requires ProducerRight(p, e) && p.next >= producers[e].next
    ensures NodesRight(v, producers[e := p], storages)
  {
    forall id | id in v.sourcesOf
      ensures StorageRight(storages[id], v.sourcesOf[id], producers[e := p])
    {
      assert StorageRight(storages[id], v.sourcesOf[id], producers);
    }
  }

  lemma {:induction false} OneStorageRight(v: Layout, producers: seq<Producer>, storages: map<nat, Storage>,
                                           id: nat, st: Storage)
    requires NodesRight(v, producers, storages) && id in v.sourcesOf && StorageRight(st, v.sourcesOf[id], producers)
    ensures NodesRight(v, producers, storages[id := st])
  {
    assert storages[id := st].Keys == storages.Keys;
  }

  lemma {:induction false} AppendOne(v: Layout, log: seq<MetaLog>, producers: seq<Producer>,
                                     storages: map<nat, Storage>, e: nat)
    requires NodesRight(v, producers, storages) && NodesFollow(v, log, producers, storages) && e < |producers|
    ensures var p := LocalAppend(producers[e], e);
            NodesRight(v, producers[e := p], storages) && NodesFollow(v, log, producers[e := p], storages)
  {
    var p := LocalAppend(producers[e], e);
    assert ProducerRight(producers[e], e);
    assert ProducerRight(p, e);
    FollowOneProducer(v, log, producers, storages, e, p);
    OneProducerRight(v, producers, storages, e, p);
  }

  lemma {:induction false} StoreRight(st: Storage, sources: seq<nat>, producers: seq<Producer>, e: nat, l: nat)
    requires StorageRight(st, sources, producers) && e in sources && e < |producers| && l < producers[e].next
    ensures StorageRight(StoreEntry(st, e, l), sources, producers)
    ensures forall x :: x in st.progress ==>
              x in StoreEntry(st, e, l).progress && st.progress[x] <= StoreEntry(st, e, l).progress[x]
    ensures StoreEntry(st, e, l).space == st.space && StoreEntry(st, e, l).sequenced == st.sequenced
  {
    var st' := StoreEntry(st, e, l);
    var old', new' := st.progress[e], st'.progress[e];
    if new' > old' {
      assert (e, new' - 1) in st'.pending;
    }
    forall x: nat | st'.space.progress[e] <= x < st'.progress[e]
      ensures (e, x) in st'.pending
    {
      if x < old' {
        assert (e, x) in st.pending;
      }
    }
  }

  lemma {:induction false} StoreOne(v: Layout, s: State, id: nat, e: nat, l: nat)
    requires ValidLayout(v) && id in v.sourcesOf && e in v.sourcesOf[id] && id in s.storages
    requires NodesRight(v, s.producers, s.storages) && e < |s.producers| && l < s.producers[e].next
    requires NodesFollow(v, s.sequencer.log, s.producers, s.storages)
    requires PrimaryRight(v, s.shardProgress, s.reports, s.storages)
    ensures e in s.storages[id].progress
    ensures NodesRight(v, s.producers, s.storages[id := StoreEntry(s.storages[id], e, l)])
    ensures NodesFollow(v, s.sequencer.log, s.producers, s.storages[id := StoreEntry(s.storages[id], e, l)])
    ensures PrimaryRight(v, s.shardProgress, s.reports, s.storages[id := StoreEntry(s.storages[id], e, l)])
  {
    assert StorageRight(s.storages[id], v.sourcesOf[id], s.producers);
    StoreRight(s.storages[id], v.sourcesOf[id], s.producers, e, l);
    StoreKeeps(v, s, id, StoreEntry(s.storages[id], e, l));
  }

  lemma {:induction false} StoreKeeps(v: Layout, s: State, id: nat, st: Storage)
    requires ValidLayout(v) && id in v.sourcesOf
    requires NodesRight(v, s.producers, s.storages)
    requires NodesFollow(v, s.sequencer.log, s.producers, s.storages)
    requires PrimaryRight(v, s.shardProgress, s.reports, s.storages)
    requires StorageRight(st, v.sourcesOf[id], s.producers)
    requires st.space == s.storages[id].space && st.sequenced == s.storages[id].sequenced
    requires forall e :: e in s.storages[id].progress ==> e in st.progress && s.storages[id].progress[e] <= st.progress[e]
    ensures NodesRight(v, s.producers, s.storages[id := st])
    ensures NodesFollow(v, s.sequencer.log, s.producers, s.storages[id := st])
    ensures PrimaryRight(v, s.shardProgress, s.reports, s.storages[id := st])
  {
    OneStorageRight(v, s.producers, s.storages, id, st);
    FollowOneStorage(v, s.sequencer.log, s.producers, s.storages, id, st);
    StorePrimary(v, s.shardProgress, s.reports, s.storages, id, st);
  }

  lemma {:induction false} StorePrimary(v: Layout, p: ShardProgress, reports: set<(nat, seq<nat>)>,
                                        storages: map<nat, Storage>, id: nat, st: Storage)
    requires ValidLayout(v) && PrimaryRight(v, p, reports, storages) && id in storages
    requires forall e :: e in storages[id].progress ==> e in st.progress && storages[id].progress[e] <= st.progress[e]
    ensures PrimaryRight(v, p, reports, storages[id := st])
  {
  }

  lemma {:induction false} ReportPrimary(v: Layout, p: ShardProgress, reports: set<(nat, seq<nat>)>,
                                         storages: map<nat, Storage>, id: nat)
    requires PrimaryRight(v, p, reports, storages) && id in v.sourcesOf && id in storages
    requires forall i :: 0 <= i < |v.sourcesOf[id]| ==> v.sourcesOf[id][i] in storages[id].progress
    ensures PrimaryRight(v, p, reports + {(id, ReportOf(storages[id], v.sourcesOf[id]))}, storages)
  {
  }

  lemma {:induction false} RaisedBelow(v: Layout, p: ShardProgress, reports: set<(nat, seq<nat>)>,
                                       storages: map<nat, Storage>, id: nat, report: seq<nat>, i: nat)
    requires ValidLayout(v) && PrimaryRight(v, p, reports, storages) && (id, report) in reports && i <= |report|
    ensures PrimaryRight(v, Raised(p, id, v.sourcesOf[id], report, i), reports, storages)
  {
    if i > 0 {
      RaisedBelow(v, p, reports, storages, id, report, i - 1);
    }
  }

  lemma {:induction false} CutLineMonotone(v: Layout, p: ShardProgress, q: ShardProgress)
    requires ValidLayout(v) && HasPairs(v, p) && p.Keys == q.Keys && forall pair :: pair in p ==> p[pair] <= q[pair]
    ensures HasPairs(v, q) && Below(CutLine(v, p), CutLine(v, q))
  {
    forall e | 0 <= e < |v.storagesOf|
      ensures Replicated(v, p, e) <= Replicated(v, q, e)
    {
      assert HasPairs(v, q);
      var r := MinProgress(q, e, v.storagesOf[e]);
      var id :| id in v.storagesOf[e] && r == q[(e, id)];
      assert Replicated(v, p, e) <= p[(e, id)];
    }
  }

  lemma {:induction false} ReceiveReportInv(c: S.Config, v: Layout, s: State, s': State, id: nat, report: seq<nat>)
    requires ValidSystem(c, v) && Inv(c, v, s) && DoReceiveReport(v, s, s', id, report)
    ensures Inv(c, v, s')
  {
    if !s.sequencer.primaryFrozen {
      RaisedTakesIn(s.shardProgress, id, v.sourcesOf[id], report, |report|);
      RaisedBelow(v, s.shardProgress, s.reports, s.storages, id, report, |report|);
      CutLineMonotone(v, s.shardProgress, s'.shardProgress);
    }
  }

  // ------------------------------------------------------------------------
  // Metalogs at engines and storages

  /** Whatever has been cut was stored by every storage of its engine, and appended before that. */
  lemma {:induction false} CutIsStored(c: S.Config, v: Layout, s: State, e: nat, id: nat)
    requires ValidSystem(c, v) && Inv(c, v, s) && e < c.shards && id in v.storagesOf[e]
    ensures id in s.storages && e in s.storages[id].progress && e < |s.producers|
    ensures ShardStart(s.sequencer.log, |s.sequencer.log|, e) <= s.storages[id].progress[e] <= s.producers[e].next
  {
    assert CutLine(v, s.shardProgress)[e] <= s.shardProgress[(e, id)];
    assert StorageRight(s.storages[id], v.sourcesOf[id], s.producers);
  }

  lemma {:induction false} NodeReceives(sp: Space, handed: seq<Delivery>, log: seq<MetaLog>, interested: set<nat>,
                                        n: nat, pending: set<LocalId>, k: nat)
    requires NodeFollows(sp, handed, log, interested, n) && k < |log| && WellFormed(log[k], |sp.progress|)
    requires forall i, l: nat :: i in interested && sp.progress[i] <= l < ShardStart(log, |log|, i) ==> (i, l) in pending
    ensures var o := Provide(sp, log[k]);
            var t := Take(pending, Deliveries(o.calls));
            && NodeFollows(o.space, handed + Deliveries(o.calls), log, interested, n)
            && (forall i :: 0 <= i < n ==> sp.progress[i] <= o.space.progress[i])
            && t.Taken?
            && (forall id: LocalId :: id in t.rest ==> id in pending)
            && (forall id: LocalId :: id in pending && !(id.0 in interested && id.1 < o.space.progress[id.0]) ==> id in t.rest)
  {
    ProvideFollows(sp, log, k);
    ProvideTakes(sp, log, k, pending);
    var o := Provide(sp, log[k]);
    SumsMonotone(log, sp.position, o.space.position);
    ReplaySplit(log, interested, 0, sp.position, o.space.position);
  }

  lemma {:induction false} ToEngineInv(c: S.Config, v: Layout, s: State, s': State, e: nat, k: nat)
    requires ValidSystem(c, v) && Inv(c, v, s) && DoToEngine(s, s', e, k)
    ensures Inv(c, v, s')
  {
    CutIsStored(c, v, s, e, v.storagesOf[e][0]);
    EngineReceives(s, v, s', e, k);
    FollowOneProducer(v, s.sequencer.log, s.producers, s.storages, e, s'.producers[e]);
    OneProducerRight(v, s.producers, s.storages, e, s'.producers[e]);
  }

  lemma {:induction false} EngineReceives(s: State, v: Layout, s': State, e: nat, k: nat)
    requires DoToEngine(s, s', e, k) && ProducerRight(s.producers[e], e)
    requires NodeFollows(s.producers[e].space, s.producers[e].results, s.sequencer.log, {e}, |v.storagesOf|)
    requires ShardStart(s.sequencer.log, |s.sequencer.log|, e) <= s.producers[e].next
    ensures e < |s'.producers| && s'.producers[e].next == s.producers[e].next
    ensures s' == s.(producers := s.producers[e := s'.producers[e]])
    ensures NodeFollows(s'.producers[e].space, s'.producers[e].results, s.sequencer.log, {e}, |v.storagesOf|)
    ensures ProducerRight(s'.producers[e], e)
  {
    var p := s.producers[e];
    NodeReceives(p.space, p.results, s.sequencer.log, {e}, |v.storagesOf|, p.pending, k);
  }

  lemma {:induction false} ToStorageInv(c: S.Config, v: Layout, s: State, s': State, id: nat, k: nat)
    requires ValidSystem(c, v) && Inv(c, v, s) && DoToStorage(s, s', id, k)
    ensures Inv(c, v, s')
  {
    var log := s.sequencer.log;
    forall e | e in v.sourcesOf[id]
      ensures ShardStart(log, |log|, e) <= s.storages[id].progress[e]
    {
      CutIsStored(c, v, s, e, id);
    }
    StorageReceives(s, v, s', id, k);
    var st := s'.storages[id];
    FollowOneStorage(v, log, s.producers, s.storages, id, st);
    OneStorageRight(v, s.producers, s.storages, id, st);
    StorePrimary(v, s.shardProgress, s.reports, s.storages, id, st);
  }

  lemma {:induction false} StorageReceives(s: State, v: Layout, s': State, id: nat, k: nat)
    requires DoToStorage(s, s', id, k) && id in v.sourcesOf
    requires StorageRight(s.storages[id], v.sourcesOf[id], s.producers)
    requires NodeFollows(s.storages[id].space, s.storages[id].sequenced, s.sequencer.log,
                         S.Members(v.sourcesOf[id]), |v.storagesOf|)
    requires forall e :: e in v.sourcesOf[id] ==>
               ShardStart(s.sequencer.log, |s.sequencer.log|, e) <= s.storages[id].progress[e]
    ensures id in s'.storages && s'.storages[id].progress == s.storages[id].progress
    ensures s' == s.(storages := s.storages[id := s'.storages[id]])
    ensures NodeFollows(s'.storages[id].space, s'.storages[id].sequenced, s.sequencer.log,
                        S.Members(v.sourcesOf[id]), |v.storagesOf|)
    ensures StorageRight(s'.storages[id], v.sourcesOf[id], s.producers)
  {
    var st := s.storages[id];
    NodeReceives(st.space, st.sequenced, s.sequencer.log, S.Members(v.sourcesOf[id]), |v.storagesOf|, st.pending, k);
  }

  // ------------------------------------------------------------------------
  // Runs

  lemma {:induction false} SequenceInv(c: S.Config, v: Layout, s: State, s': State, sub: S.Step)
    requires ValidSystem(c, v) && Inv(c, v, s) && NextStep(c, v, s, s', Sequence(sub))
    ensures Inv(c, v, s')
  {
    S.StepFollowing(c, s.sequencer, s'.sequencer, sub);
    S.StepInv(c, s.sequencer, s'.sequencer, sub);
    assert s'.sequencer.log == s.sequencer.log;
  }

  lemma {:induction false} StepInv(c: S.Config, v: Layout, s: State, s': State, step: Step)
    requires ValidSystem(c, v) && Inv(c, v, s) && NextStep(c, v, s, s', step)
    ensures Inv(c, v, s')
  {
    match step
    case Sequence(sub) => SequenceInv(c, v, s, s', sub);
    case MarkCut => MarkCutInv(c, v, s, s');
    case Append(e) => AppendOne(v, s.sequencer.log, s.producers, s.storages, e);
    case Store(id, e, l) => StoreOne(v, s, id, e, l);
    case Report(id) => ReportPrimary(v, s.shardProgress, s.reports, s.storages, id);
    case ReceiveReport(id, report) => ReceiveReportInv(c, v, s, s', id, report);
    case ToEngine(e, k) => ToEngineInv(c, v, s, s', e, k);
    case ToStorage(id, k) => ToStorageInv(c, v, s, s', id, k);
  }

  lemma {:induction false} RunInv(c: S.Config, v: Layout, run: seq<State>)
    requires ValidSystem(c, v) && IsRun(c, v, run)
    ensures Inv(c, v, run[|run| - 1])
  {
    if |run| == 1 {
      InitInv(c, v, run[0]);
    } else {
      var front, s, s' := run[..|run| - 1], run[|run| - 2], run[|run| - 1];
      assert front[|front| - 1] == s;
      RunInv(c, v, front);
      var step :| NextStep(c, v, s, s', step);
      StepInv(c, v, s, s', step);
    }
  }

  // What the cluster's invariant says about one storage.
  lemma {:induction false} StorageFollows(c: S.Config, v: Layout, s: State, id: nat)
    requires ValidSystem(c, v) && Inv(c, v, s) && id in v.sourcesOf
    ensures id in s.storages && !s.aborted && Chain(s.sequencer.log, c.shards)
    ensures FollowsLite(s.storages[id].space, s.sequencer.log, S.Members(v.sourcesOf[id]), c.shards)
  {
    var st := s.storages[id];
    assert NodeFollows(st.space, st.sequenced, s.sequencer.log, S.Members(v.sourcesOf[id]), |v.storagesOf|);
  }

  lemma {:induction false} RunStorage(c: S.Config, v: Layout, run: seq<State>, id: nat)
    requires ValidSystem(c, v) && IsRun(c, v, run) && id in v.sourcesOf
    ensures var s := run[|run| - 1];
            && id in s.storages && Chain(s.sequencer.log, c.shards)
            && FollowsLite(s.storages[id].space, s.sequencer.log, S.Members(v.sourcesOf[id]), c.shards)
  {
    RunInv(c, v, run);
    StorageFollows(c, v, run[|run| - 1], id);
  }

  // No step takes back a cut.
  lemma {:induction false} LogGrows(c: S.Config, v: Layout, s: State, s': State, step: Step)
    requires NextStep(c, v, s, s', step)
    ensures s.sequencer.log <= s'.sequencer.log
  {
  }

  lemma {:induction false} LogsGrow(c: S.Config, v: Layout, run: seq<State>, i: nat)
    requires IsRun(c, v, run) && i < |run|
    ensures IsRun(c, v, run[..i + 1]) && run[i].sequencer.log <= run[|run| - 1].sequencer.log
    decreases |run|
  {
    if i == |run| - 1 {
      assert run[..i + 1] == run;
    } else {
      var front, s, s' := run[..|run| - 1], run[|run| - 2], run[|run| - 1];
      assert front[|front| - 1] == s && front[..i + 1] == run[..i + 1];
      LogsGrow(c, v, front, i);
      var step :| NextStep(c, v, s, s', step);
      LogGrows(c, v, s, s', step);
    }
  }

  /** Durability over every run: no OnNewLogs loop ever misses an entry, and every entry covered by
      a cut has been stored by all storages of its engine, each of which either still has it waiting
      or has already sequenced it, as has the engine itself. */
  lemma {:induction false} Durable(c: S.Config, v: Layout, run: seq<State>, e: nat, id: nat, l: nat)
    requires ValidSystem(c, v) && IsRun(c, v, run) && e < c.shards && id in v.storagesOf[e]
    requires l < ShardStart(run[|run| - 1].sequencer.log, |run[|run| - 1].sequencer.log|, e)
    ensures var s := run[|run| - 1];
            && !s.aborted
            && id in s.storages && e in s.storages[id].progress && l < s.storages[id].progress[e]
            && |s.storages[id].space.progress| == |s.producers| == c.shards == |s.producers[e].space.progress|
            && ((e, l) in s.storages[id].pending || l < s.storages[id].space.progress[e])
            && ((e, l) in s.producers[e].pending || l < s.producers[e].space.progress[e])
  {
    RunInv(c, v, run);
    var s := run[|run| - 1];
    CutIsStored(c, v, s, e, id);
    assert StorageRight(s.storages[id], v.sourcesOf[id], s.producers);
    assert ProducerRight(s.producers[e], e);
  }

  /** The engine and the storages agree: what any of them has been handed for a shard is the shard's
      entries up to its own progress, in order, each once, with the sequence number the cuts give it and
      the cut that covers it. */
  lemma {:induction false} NodesAgree(c: S.Config, v: Layout, run: seq<State>, e: nat, id: nat)
    requires ValidSystem(c, v) && IsRun(c, v, run) && e < c.shards && id in v.storagesOf[e]
    ensures var s := run[|run| - 1];
            var log := s.sequencer.log;
            && Chain(log, c.shards) && e < |s.producers| && id in s.storages
            && Ordered(log, c.shards, s.producers[e].results, e)
            && Ordered(log, c.shards, Only(s.storages[id].sequenced, {e}), e)
            && e < |s.producers[e].space.progress| && |s.producers[e].results| == s.producers[e].space.progress[e]
            && e < |s.storages[id].space.progress|
            && |Only(s.storages[id].sequenced, {e})| == s.storages[id].space.progress[e]
  {
    RunInv(c, v, run);
    var s := run[|run| - 1];
    var p, st := s.producers[e], s.storages[id];
    assert NodeFollows(p.space, p.results, s.sequencer.log, {e}, c.shards);
    assert NodeFollows(st.space, st.sequenced, s.sequencer.log, S.Members(v.sourcesOf[id]), c.shards);
    HandedInOrder(p.space, p.results, s.sequencer.log, {e}, c.shards, e);
    HandedInOrder(st.space, st.sequenced, s.sequencer.log, S.Members(v.sourcesOf[id]), c.shards, e);
    OnlyUniform(p.results, e, {e});
  }

  // Delivery number l of the shard is its entry l, with the sequence number of the total order.
  ghost predicate Ordered(log: seq<MetaLog>, n: nat, ds: seq<Delivery>, e: nat)
    requires Chain(log, n) && e < n
  {
    && |ds| <= ShardStart(log, |log|, e)
    && forall l :: 0 <= l < |ds| ==>
         && ds[l].shard == e && ds[l].local == l && ds[l].seqnum == SeqnumOf(log, n, e, l)
         && ds[l].metalog < |log| && Covers(log[ds[l].metalog], e, l)
  }

  lemma {:induction false} HandedInOrder(sp: Space, handed: seq<Delivery>, log: seq<MetaLog>,
                                         interested: set<nat>, n: nat, e: nat)
    requires NodeFollows(sp, handed, log, interested, n) && e in interested && e < n
    ensures Ordered(log, n, Only(handed, {e}), e) && |Only(handed, {e})| == sp.progress[e]
    ensures interested == {e} ==> forall l :: 0 <= l < |handed| ==> handed[l].shard == e
  {
    OnlyOfReplay(log, interested, {e}, 0, sp.position);
    assert interested * {e} == {e};
    ReplayOfShard(log, n, e, sp.position);
  }
}
