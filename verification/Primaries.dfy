/**
 Which storages keep which shard.  Engines, and so shards, are named by their
 position in the view; storages by their node id.
 */
module Layouts {
  datatype Layout = Layout(storagesOf: seq<seq<nat>>, sourcesOf: map<nat, seq<nat>>)

  // Every shard has a storage, and the two maps are inverse to one another.
  ghost predicate ValidLayout(v: Layout) {
    && (forall e :: 0 <= e < |v.storagesOf| ==> v.storagesOf[e] != [])
    && (forall e, s {:trigger s in v.storagesOf[e]} ::
          0 <= e < |v.storagesOf| && s in v.storagesOf[e] ==> s in v.sourcesOf && e in v.sourcesOf[s])
    && (forall s, e {:trigger e in v.sourcesOf[s]} ::
          s in v.sourcesOf && e in v.sourcesOf[s] ==> e < |v.storagesOf| && s in v.storagesOf[e])
  }
}

/** MetaLogPrimary: the sequencer's side of a log space. */
module Primaries {
  import opened MetaLogs
  import opened LogSpaces
  import opened LiteMode
  import opened Layouts
  import opened Ranks

  type ShardProgress = map<(nat, nat), nat>

  ghost predicate HasPairs(v: Layout, p: ShardProgress) {
    forall e, s :: 0 <= e < |v.storagesOf| && s in v.storagesOf[e] ==> (e, s) in p
  }

  function NoProgress(v: Layout): (p: ShardProgress)
    ensures HasPairs(v, p) && forall pair :: pair in p ==> p[pair] == 0
  {
    var pairs := set e, s | 0 <= e < |v.storagesOf| && s in v.storagesOf[e] :: (e, s);
    map pair | pair in pairs :: 0
  }

  // The progress of a shard that all the given storages have reached.
  function MinProgress(p: ShardProgress, e: nat, storages: seq<nat>): (r: nat)
    requires storages != [] && forall s :: s in storages ==> (e, s) in p
    ensures forall s :: s in storages ==> r <= p[(e, s)]
    ensures exists s :: s in storages && r == p[(e, s)]
  {
    var last := storages[|storages| - 1];
    if |storages| == 1 then p[(e, last)]
    else
      var front := storages[..|storages| - 1];
      assert storages == front + [last];
      var r := MinProgress(p, e, front);
      if p[(e, last)] < r then p[(e, last)] else r
  }

  function Replicated(v: Layout, p: ShardProgress, e: nat): nat
    requires ValidLayout(v) && HasPairs(v, p) && e < |v.storagesOf|
  {
    MinProgress(p, e, v.storagesOf[e])
  }

  // The progress map after the first i entries of a report from one storage.
  function Raised(p: ShardProgress, storage: nat, sources: seq<nat>, report: seq<nat>, i: nat): ShardProgress
    requires i <= |sources| == |report|
  {
    if i == 0 then p
    else
      var q := Raised(p, storage, sources, report, i - 1);
      var pair := (sources[i - 1], storage);
      if pair in q && report[i - 1] > q[pair] then q[pair := report[i - 1]] else q
  }

  // A report has been taken in: every pair it is about has the largest of its old progress and what the
  // report says of it, and no other pair has changed.
  ghost predicate TakenIn(p: ShardProgress, p': ShardProgress, storage: nat, sources: seq<nat>, report: seq<nat>)
    requires |sources| == |report|
  {
    && p'.Keys == p.Keys
    && (forall pair :: pair in p ==> p[pair] <= p'[pair])
    && (forall i :: 0 <= i < |sources| && (sources[i], storage) in p ==> report[i] <= p'[(sources[i], storage)])
    && (forall pair :: pair in p && p'[pair] != p[pair] ==>
          pair.1 == storage && exists i :: 0 <= i < |sources| && sources[i] == pair.0 && report[i] == p'[pair])
  }

  /** Whatever is reported is taken in, entry by entry. */
  lemma {:induction false} RaisedTakesIn(p: ShardProgress, storage: nat, sources: seq<nat>, report: seq<nat>, i: nat)
    requires i <= |sources| == |report|
    ensures TakenIn(p, Raised(p, storage, sources, report, i), storage, sources[..i], report[..i])
  {
    if i > 0 {
      RaisedTakesIn(p, storage, sources, report, i - 1);
      OneMoreTaken(p, Raised(p, storage, sources, report, i - 1), storage, sources, report, i - 1);
    }
  }

  lemma {:induction false} OneMoreTaken(p: ShardProgress, q: ShardProgress, storage: nat, sources: seq<nat>,
                                        report: seq<nat>, i: nat)
    requires i < |sources| == |report| && TakenIn(p, q, storage, sources[..i], report[..i])
    ensures var pair := (sources[i], storage);
            TakenIn(p, if pair in q && report[i] > q[pair] then q[pair := report[i]] else q, storage,
                    sources[..i + 1], report[..i + 1])
  {
    var a, b := sources[..i + 1], report[..i + 1];
    assert a[i] == sources[i] && b[i] == report[i];
    forall j | 0 <= j < i
      ensures a[j] == sources[..i][j] && b[j] == report[..i][j]
    {
    }
  }

  /** Of distinct sources each gets the larger of its old progress and its entry of the report. */
  lemma {:induction false} TakenInDistinct(p: ShardProgress, p': ShardProgress, storage: nat, sources: seq<nat>,
                                           report: seq<nat>, i: nat)
    requires |sources| == |report| && TakenIn(p, p', storage, sources, report)
    requires Distinct(sources) && i < |sources| && (sources[i], storage) in p
    ensures var old' := p[(sources[i], storage)];
            p'[(sources[i], storage)] == if report[i] > old' then report[i] else old'
  {
  }

  /** A shard has something to cut exactly when all of its storages have reported past its last cut. */
  lemma {:induction false} ReplicatedPast(v: Layout, p: ShardProgress, e: nat, cut: nat)
    requires ValidLayout(v) && HasPairs(v, p) && e < |v.storagesOf|
    ensures cut < Replicated(v, p, e) <==> forall s :: s in v.storagesOf[e] ==> cut < p[(e, s)]
  {
    var r := MinProgress(p, e, v.storagesOf[e]);
    var s :| s in v.storagesOf[e] && r == p[(e, s)];
  }

  // One higher number in the map changes the minimum of its own shard only, and upwards.
  lemma {:induction false} ReplicatedRaise(v: Layout, p: ShardProgress, pair: (nat, nat), x: nat, e: nat)
    requires ValidLayout(v) && HasPairs(v, p) && e < |v.storagesOf|
    requires pair in p && x >= p[pair]
    ensures HasPairs(v, p[pair := x])
    ensures Replicated(v, p[pair := x], e) >= Replicated(v, p, e)
    ensures e != pair.0 ==> Replicated(v, p[pair := x], e) == Replicated(v, p, e)
  {
  }

  // The replicated position of every shard.
  function CutLine(v: Layout, p: ShardProgress): (line: seq<nat>)
    requires ValidLayout(v) && HasPairs(v, p)
    ensures |line| == |v.storagesOf| && forall e :: 0 <= e < |line| ==> line[e] == Replicated(v, p, e)
  {
    seq(|v.storagesOf|, e requires 0 <= e < |v.storagesOf| => Replicated(v, p, e))
  }

  ghost predicate Below(a: seq<nat>, b: seq<nat>) {
    |a| == |b| && forall e :: 0 <= e < |a| ==> a[e] <= b[e]
  }

  // The metalog that moves every shard's cut from one line to another.
  function CutBetween(lastCut: seq<nat>, line: seq<nat>, position: nat, seqnumPosition: nat): MetaLog
    requires Below(lastCut, line)
  {
    MetaLog(position, seqnumPosition, lastCut,
            seq(|lastCut|, e requires 0 <= e < |lastCut| => line[e] - lastCut[e]))
  }

  // The last cut of every shard lies where the cuts so far end.
  ghost predicate CutHere(cuts: seq<MetaLog>, lastCut: seq<nat>) {
    && Chain(cuts, |lastCut|)
    && forall e :: 0 <= e < |lastCut| ==> lastCut[e] == ShardStart(cuts, |cuts|, e)
  }

  // A cut with anything to take continues the run of cuts.
  lemma {:induction false} CutContinues(cuts: seq<MetaLog>, lastCut: seq<nat>, line: seq<nat>)
    requires CutHere(cuts, lastCut) && Below(lastCut, line) && lastCut != line
    ensures var m := CutBetween(lastCut, line, |cuts|, Total(cuts, |cuts|));
            CutHere(cuts + [m], line) && Total(cuts + [m], |cuts| + 1) == EndSeqnum(m)
  {
    var m := CutBetween(lastCut, line, |cuts|, Total(cuts, |cuts|));
    var e :| 0 <= e < |lastCut| && lastCut[e] != line[e];
    SumZero(m.deltas, e);
    ChainExtend(cuts, m, |lastCut|);
  }

  class MetaLogPrimary {
    const layout: Layout
    const backups: seq<nat>
    const space: LogSpace
    var shardProgress: ShardProgress
    var lastCut: seq<nat>
    var dirtyShards: set<nat>
    var replicaProgress: map<nat, nat>
    var replicatedPosition: nat

    // A shard is dirty exactly when its replicated position is past its last cut, never behind it.
    ghost predicate ShardsValid()
      reads this
    {
      && ValidLayout(layout) && HasPairs(layout, shardProgress) && |lastCut| == |layout.storagesOf|
      && (forall e :: e in dirtyShards ==> e < |lastCut|)
      && (forall e :: 0 <= e < |lastCut| ==>
            && lastCut[e] <= Replicated(layout, shardProgress, e)
            && (e in dirtyShards <==> lastCut[e] < Replicated(layout, shardProgress, e)))
    }

    ghost predicate ReplicasValid()
      reads this, space
    {
      && Distinct(backups)
      && (forall i :: 0 <= i < |backups| ==> backups[i] in replicaProgress && replicaProgress[backups[i]] <= space.position)
      && replicatedPosition == ReplicatedOf(backups, replicaProgress)
      && replicatedPosition <= space.position
    }

    ghost predicate SpaceValid()
      reads this, space, space.shardProgress
    {
      && space.mode.Full? && space.interested == {} && space.pending == map[]
      && space.shardProgress.Length == |lastCut|
      && space.position == |space.applied|
      && Follows(space.Model(), space.applied)
      && CutHere(space.applied, lastCut)
    }

    ghost predicate Valid()
      reads this, space, space.shardProgress
    {
      ShardsValid() && ReplicasValid() && SpaceValid()
    }

    constructor (layout: Layout, backups: seq<nat>)
      requires ValidLayout(layout) && Distinct(backups)
      ensures Valid() && fresh(space) && fresh(space.shardProgress)
      ensures this.layout == layout && this.backups == backups
      ensures space.applied == [] && replicatedPosition == 0 && !space.frozen
      ensures shardProgress == NoProgress(layout) && dirtyShards == {} && forall b :: b in backups ==> replicaProgress[b] == 0
    {
      this.layout, this.backups := layout, backups;
      shardProgress := NoProgress(layout);
      lastCut := seq(|layout.storagesOf|, _ => 0);
      dirtyShards := {};
      replicaProgress := map b | b in backups :: 0;
      replicatedPosition := 0;
      space := new LogSpace(Full, {}, |layout.storagesOf|);
      new;
      FreshFollows(Full, {}, |layout.storagesOf|, []);
      if backups != [] {
        RankBound(Values(backups, replicaProgress), |backups| / 2, 0);
      }
    }

    method UpdateStorageProgress(storage: nat, report: seq<nat>) returns (ok: bool)
      requires Valid()
      modifies this`shardProgress, this`dirtyShards
      ensures Valid()
      ensures ok <==> storage in layout.sourcesOf && |report| == |layout.sourcesOf[storage]|
      ensures !ok ==> shardProgress == old(shardProgress) && dirtyShards == old(dirtyShards)
      ensures ok ==> shardProgress == Raised(old(shardProgress), storage, layout.sourcesOf[storage], report, |report|)
      ensures ok ==> TakenIn(old(shardProgress), shardProgress, storage, layout.sourcesOf[storage], report)
      ensures forall e :: 0 <= e < |lastCut| ==> (e in dirtyShards <==> AllPast(e))
    {
      DirtyAllPast();
      if storage !in layout.sourcesOf {
        return false;
      }
      var sources := layout.sourcesOf[storage];
      if |report| != |sources| {
        return false;
      }
      for i := 0 to |report|
        invariant ShardsValid()
        invariant shardProgress == Raised(old(shardProgress), storage, sources, report, i)
      {
        assert sources[i] in sources;
        RaiseShard(sources[i], storage, report[i]);
      }
      RaisedTakesIn(old(shardProgress), storage, sources, report, |report|);
      assert sources[..|report|] == sources && report[..|report|] == report;
      DirtyAllPast();
      ok := true;
    }

    // All storages of the shard have reported past its last cut.
    ghost predicate AllPast(e: nat)
      reads this
    {
      && e < |lastCut| == |layout.storagesOf| && HasPairs(layout, shardProgress)
      && forall s :: s in layout.storagesOf[e] ==> lastCut[e] < shardProgress[(e, s)]
    }

    lemma DirtyAllPast()
      requires ShardsValid()
      ensures forall e :: 0 <= e < |lastCut| ==> (e in dirtyShards <==> AllPast(e))
    {
      forall e | 0 <= e < |lastCut|
        ensures e in dirtyShards <==> AllPast(e)
      {
        ReplicatedPast(layout, shardProgress, e, lastCut[e]);
      }
    }

    // One turn of the loop of UpdateStorageProgress.
    method RaiseShard(e: nat, storage: nat, value: nat)
      requires ShardsValid() && e < |lastCut| && storage in layout.storagesOf[e]
      modifies this`shardProgress, this`dirtyShards
      ensures ShardsValid()
      ensures (e, storage) in old(shardProgress)
      ensures shardProgress == if value > old(shardProgress)[(e, storage)]
                               then old(shardProgress)[(e, storage) := value] else old(shardProgress)
    {
      var pair := (e, storage);
      if value > shardProgress[pair] {
        ghost var before := shardProgress;
        shardProgress := shardProgress[pair := value];
        forall e' | 0 <= e' < |lastCut|
          ensures HasPairs(layout, shardProgress)
          ensures Replicated(layout, shardProgress, e') >= Replicated(layout, before, e')
          ensures e' != e ==> Replicated(layout, shardProgress, e') == Replicated(layout, before, e')
        {
          ReplicatedRaise(layout, before, pair, value, e');
        }
        var current := MinProgress(shardProgress, e, layout.storagesOf[e]);
        if current > lastCut[e] {
          dirtyShards := dirtyShards + {e};
        }
      }
    }

    method UpdateReplicaProgress(sequencer: nat, position: nat) returns (ok: bool)
      requires Valid()
      modifies this`replicaProgress, this`replicatedPosition
      ensures Valid()
      ensures ok <==> sequencer in backups && position <= space.position
      ensures ok ==> replicaProgress == old(replicaProgress)[sequencer :=
                                          if position > old(replicaProgress)[sequencer] then position
                                          else old(replicaProgress)[sequencer]]
      ensures !ok ==> replicaProgress == old(replicaProgress)
      ensures replicatedPosition >= old(replicatedPosition)
    {
      if sequencer !in backups || position > space.position {
        return false;
      }
      ok := true;
      if position > replicaProgress[sequencer] {
        ghost var before := replicaProgress;
        replicaProgress := replicaProgress[sequencer := position];
        ReplicatedMoves(backups, before, replicaProgress, space.position);
        if replicatedPosition != space.position {
          replicatedPosition := Sort(Values(backups, replicaProgress))[|backups| / 2];
        }
      } else {
        assert replicaProgress == old(replicaProgress)[sequencer := old(replicaProgress)[sequencer]];
      }
    }

    // The loop of MarkNextCut.
    method BuildCut() returns (m: MetaLog, line: seq<nat>)
      requires Valid() && dirtyShards != {}
      ensures line == CutLine(layout, shardProgress) && Below(lastCut, line)
      ensures m == CutBetween(lastCut, line, space.position, space.seqnumPosition)
      ensures CutHere(space.applied + [m], line)
    {
      var deltas: seq<nat> := [];
      line := [];
      for e := 0 to |lastCut|
        invariant |deltas| == |line| == e
        invariant forall j :: 0 <= j < e ==> line[j] == Replicated(layout, shardProgress, j)
        invariant forall j :: 0 <= j < e ==> deltas[j] == line[j] - lastCut[j]
      {
        var current := lastCut[e];
        if e in dirtyShards {
          current := MinProgress(shardProgress, e, layout.storagesOf[e]);
        }
        deltas := deltas + [current - lastCut[e]];
        line := line + [current];
      }
      m := MetaLog(space.position, space.seqnumPosition, lastCut, deltas);
      assert line == CutLine(layout, shardProgress);
      assert m == CutBetween(lastCut, line, space.position, space.seqnumPosition);
      ghost var e :| e in dirtyShards;
      assert lastCut[e] != line[e];
      CutContinues(space.applied, lastCut, line);
    }

    /** Cuts exactly when some shard is dirty; the new metalog continues the previous ones, every
        shard's last cut becomes its replicated position and no shard stays dirty. */
    method MarkNextCut() returns (cut: seq<MetaLog>)
      requires Valid()
      modifies this`lastCut, this`dirtyShards, space, space.shardProgress
      ensures Valid() && dirtyShards == {} && space.frozen == old(space.frozen)
      ensures cut == [] <==> old(dirtyShards) == {}
      ensures lastCut == CutLine(layout, shardProgress)
      ensures space.applied == old(space.applied) + cut
      ensures cut != [] ==>
                && Below(old(lastCut), lastCut)
                && cut == [CutBetween(old(lastCut), lastCut, old(space.position), old(space.seqnumPosition))]
    {
      if dirtyShards == {} {
        assert lastCut == CutLine(layout, shardProgress);
        return [];
      }
      var m, line := BuildCut();
      OwnCutApplies(space.Model(), m);
      lastCut := line;
      dirtyShards := {};
      var _ := space.ProvideMetaLog(m);
      cut := [m];
    }
  }

  // A primary's own next metalog is applied at once.
  lemma {:induction false} OwnCutApplies(sp: Space, m: MetaLog)
    requires sp.mode.Full? && sp.pending == map[] && sp.position == |sp.applied|
    requires Follows(sp, sp.applied) && Chain(sp.applied + [m], |sp.progress|) && m.seqnum == sp.position
    ensures WellFormed(m, |sp.progress|)
    ensures var sp' := Provide(sp, m).space;
            && sp'.pending == map[] && sp'.applied == sp.applied + [m]
            && sp'.position == |sp'.applied| && Follows(sp', sp'.applied)
  {
    var cuts := sp.applied + [m];
    FollowsMore(sp, sp.applied, m);
    assert Continues(cuts, sp.position, |sp.progress|);
    ApplyFollows(sp, cuts, sp.position);
    var with := sp.(pending := sp.pending[m.seqnum := m]);
    assert with.pending.Keys == {m.seqnum};
    assert Least(with.pending.Keys) == m.seqnum;
    assert with.pending - {m.seqnum} == map[];
    assert Advance(Apply(with, m).(pending := map[])).space == Apply(with, m).(pending := map[]);
    assert cuts[..sp.position + 1] == cuts;
    assert sp.pending - {sp.position} == map[];
  }
}
