/**
 Runs of the sequencers that show what is possible: a log is sealed with one of
 three replicas silent; a backup ends past the sealed position; and with empty
 tails a metalog is propagated and then sealed away.
 */
module SequencerRuns {
  import opened MetaLogs
  import opened LogSpaces
  import opened LiteMode
  import opened Finalizing
  import opened Ranks
  import opened Sealing
  import opened Sequencing

  const CUT0: MetaLog := MetaLog(0, 0, [0], [1])
  const CUT1: MetaLog := MetaLog(1, 1, [1], [1])

  // One shard, a primary and two backups.
  function ThreeReplicas(tailLength: nat): Config {
    Config(1, 0, [1, 2], tailLength)
  }

  function Nothing(): Space {
    Fresh(Full, {}, 1)
  }

  // A backup that received the second cut only.
  function Early(): Space {
    Nothing().(pending := map[1 := CUT1])
  }

  lemma {:induction false} CutsChain()
    ensures Chain([CUT0], 1) && Chain([CUT0, CUT1], 1)
  {
    assert Sum([1]) == 1;
    assert Continues([CUT0], 0, 1);
    assert Continues([CUT0, CUT1], 0, 1) && Continues([CUT0, CUT1], 1, 1);
  }

  // A space that receives the one cut there is applies it.
  lemma {:induction false} OnlyCutApplied(sp: Space, cuts: seq<MetaLog>)
    requires Follows(sp, cuts) && Settled(sp, cuts) && |cuts| == 1 && sp.position == 0 && sp.mode.Full?
    ensures WellFormed(cuts[0], |sp.progress|)
    ensures var sp' := Provide(sp, cuts[0]).space; sp'.position == 1 && sp'.applied == cuts
  {
    ProvideFollows(sp, cuts, 0);
    var sp' := Provide(sp, cuts[0]).space;
    assert 0 < sp'.position || 0 in sp'.pending;
    assert cuts[..1] == cuts;
  }

  // A cut that is not the next one waits.
  lemma {:induction false} EarlyCutWaits(sp: Space, m: MetaLog)
    requires ValidSpace(sp) && sp.mode.Full? && sp.pending == map[] && sp.position < m.seqnum && WellFormed(m, |sp.progress|)
    ensures Provide(sp, m).space == sp.(pending := map[m.seqnum := m])
  {
    var sp' := sp.(pending := sp.pending[m.seqnum := m]);
    assert sp'.pending == map[m.seqnum := m];
    assert sp'.pending.Keys == {m.seqnum};
    assert Least(sp'.pending.Keys) == m.seqnum;
  }

  lemma {:induction false} FirstDelivered()
    ensures ValidSpace(Nothing()) && WellFormed(CUT0, 1) && WellFormed(CUT1, 1)
    ensures var sp := Provide(Nothing(), CUT0).space; sp.position == 1 && sp.applied == [CUT0]
    ensures Provide(Nothing(), CUT1).space == Early()
  {
    CutsChain();
    FreshFollows(Full, {}, 1, [CUT0]);
    OnlyCutApplied(Nothing(), [CUT0]);
    EarlyCutWaits(Nothing(), CUT1);
  }

  lemma {:induction false} OneMoreStep(c: Config, run: seq<State>, s: State, step: Step)
    requires IsRun(c, run) && NextStep(c, run[|run| - 1], s, step)
    ensures IsRun(c, run + [s])
  {
    var more := run + [s];
    assert more[..|more| - 1] == run && more[|more| - 2] == run[|run| - 1];
    assert Next(c, run[|run| - 1], s);
  }

  function AtStart(): State {
    State([], false, map[1 := 0, 2 := 0], 0, map[1 := Nothing(), 2 := Nothing()], {}, {}, {}, map[], map[], Open)
  }

  lemma {:induction false} MajorityOfThree()
    ensures Sort(Values([1, 2], map[1 := 1, 2 := 0])) == [0, 1]
  {
    var values := Values([1, 2], map[1 := 1, 2 := 0]);
    assert values == [1, 0] && values[..1] == [1] && values[..1][..0] == [];
    assert Sort([]) == [] && Insert([], 1) == [1];
    assert Sort(values[..1]) == [1];
    assert Insert([1], 0) == [0, 1];
  }

  lemma {:induction false} Starts(t: nat) returns (run: seq<State>)
    ensures IsRun(ThreeReplicas(t), run) && run[|run| - 1] == AtStart().(log := [CUT0])
  {
    var c, s0 := ThreeReplicas(t), AtStart();
    CutsChain();
    assert Init(c, s0);
    assert IsRun(c, [s0]);
    assert s0.log + [CUT0] == [CUT0];
    OneMoreStep(c, [s0], s0.(log := [CUT0]), Cut(CUT0));
    run := [s0] + [s0.(log := [CUT0])];
  }

  ghost predicate OnlyFirstAcked(c: Config, s: State) {
    && c.backups == [1, 2]
    && (1, 1) in s.acks && !s.primaryFrozen && s.progress == map[1 := 0, 2 := 0] && s.replicated == 0
    && |s.log| == 1 && s.propagated == {}
  }

  function Acknowledged(s: State): State {
    s.(progress := map[1 := 1, 2 := 0], replicated := 1, propagated := {0})
  }

  lemma {:induction false} AcknowledgeStep(c: Config, s: State)
    requires OnlyFirstAcked(c, s)
    ensures NextStep(c, s, Acknowledged(s), Acknowledge(1, 1))
  {
    MajorityOfThree();
    assert s.progress[1 := 1] == Acknowledged(s).progress;
    assert {} + (Shards(1) - Shards(0)) == {0};
  }

  lemma {:induction false} Acknowledges(c: Config, run: seq<State>) returns (run': seq<State>)
    requires IsRun(c, run) && OnlyFirstAcked(c, run[|run| - 1])
    ensures IsRun(c, run') && run'[|run'| - 1] == Acknowledged(run[|run| - 1])
  {
    var s := run[|run| - 1];
    AcknowledgeStep(c, s);
    OneMoreStep(c, run, Acknowledged(s), Acknowledge(1, 1));
    run' := run + [Acknowledged(s)];
  }

  // The first cut, applied by backup 1, is replicated and propagated.
  ghost predicate IsReplicated(s: State, first: Space) {
    && s.log == [CUT0] && s.backups == map[1 := first, 2 := Nothing()] && s.propagated == {0} && s.replicated == 1
    && !s.primaryFrozen && s.frozenBackups == {} && s.tails == map[] && s.collected == map[] && s.seal.Open?
  }

  ghost predicate FirstToDeliver(c: Config, s: State, m: MetaLog, nothing: Space, first: Space) {
    && c.backups == [1, 2]
    && s.log == [m] && s.backups == map[1 := nothing, 2 := nothing] && s.acks == {} && s.frozenBackups == {}
    && ValidSpace(nothing) && WellFormed(m, |nothing.progress|) && first == Provide(nothing, m).space
    && nothing.position == 0 && first.position == 1
  }

  function FirstDeliveredTo(s: State, nothing: Space, first: Space): State {
    s.(backups := map[1 := first, 2 := nothing], acks := {(1, 1)})
  }

  lemma {:induction false} DeliverStep(c: Config, s: State, m: MetaLog, nothing: Space, first: Space)
    requires FirstToDeliver(c, s, m, nothing, first)
    ensures NextStep(c, s, FirstDeliveredTo(s, nothing, first), Deliver(1, 0))
  {
    var s' := FirstDeliveredTo(s, nothing, first);
    assert s.backups[1 := first] == s'.backups && s.acks + {(1, 1)} == s'.acks;
  }

  lemma {:induction false} DeliversFirst(c: Config, run: seq<State>, m: MetaLog, nothing: Space,
                                         first: Space) returns (run': seq<State>)
    requires IsRun(c, run) && FirstToDeliver(c, run[|run| - 1], m, nothing, first)
    ensures IsRun(c, run') && run'[|run'| - 1] == FirstDeliveredTo(run[|run| - 1], nothing, first)
  {
    var s := run[|run| - 1];
    DeliverStep(c, s, m, nothing, first);
    OneMoreStep(c, run, FirstDeliveredTo(s, nothing, first), Deliver(1, 0));
    run' := run + [FirstDeliveredTo(s, nothing, first)];
  }

  lemma {:induction false} Replicates(t: nat) returns (run: seq<State>, first: Space)
    ensures IsRun(ThreeReplicas(t), run) && IsReplicated(run[|run| - 1], first) && first.applied == [CUT0]
  {
    FirstDelivered();
    first := Provide(Nothing(), CUT0).space;
    run := Starts(t);
    run := DeliversFirst(ThreeReplicas(t), run, CUT0, Nothing(), first);
    run := Acknowledges(ThreeReplicas(t), run);
  }

  // Two tails are collected and the log is sealed.
  lemma {:induction false} Seals(c: Config, run: seq<State>, a: nat, b: nat, seal: Seal) returns (run': seq<State>)
    requires IsRun(c, run) && Quorum(Replicas(c)) <= 2 && a != b && seal.Sealed?
    requires var s := run[|run| - 1];
             && a in s.tails && b in s.tails && s.collected == map[] && s.seal.Open?
             && Merges({s.tails[a], s.tails[b]}, seal.position, seal.tail)
    ensures IsRun(c, run')
    ensures var s := run[|run| - 1];
            run'[|run'| - 1] == s.(collected := map[a := s.tails[a], b := s.tails[b]], seal := seal)
  {
    var s := run[|run| - 1];
    var s1 := s.(collected := map[a := s.tails[a]]);
    OneMoreStep(c, run, s1, Collect(a, Open));
    var s2 := s1.(collected := map[a := s.tails[a], b := s.tails[b]], seal := seal);
    assert s1.collected[b := s.tails[b]] == s2.collected && s2.collected.Keys == {a, b};
    assert s2.collected.Values == {s.tails[a], s.tails[b]} by {
      assert s2.collected[a] == s.tails[a] && s2.collected[b] == s.tails[b];
    }
    OneMoreStep(c, run + [s1], s2, Collect(b, seal));
    run' := run + [s1] + [s2];
  }

  lemma {:induction false} FreezesBackup(c: Config, run: seq<State>, b: nat, s: State) returns (run': seq<State>)
    requires IsRun(c, run) && b in c.backups
    requires var last := run[|run| - 1];
             && b in last.backups && b !in last.frozenBackups
             && s == last.(frozenBackups := last.frozenBackups + {b},
                           tails := last.tails[b := TailOf(last.backups[b].applied, c.tailLength)])
    ensures IsRun(c, run') && run'[|run'| - 1] == s
  {
    OneMoreStep(c, run, s, FreezeBackup(b));
    run' := run + [s];
  }

  lemma {:induction false} TailsMerge()
    ensures Merges({[CUT0], [CUT0]}, 1, [CUT0]) && Merges({[CUT0], []}, 1, [CUT0]) && Merges({[], []}, 0, [])
  {
    assert [CUT0][0] == CUT0;
    assert Carries([CUT0], 0);
    assert [CUT0] in {[CUT0], []};
  }

  // The primary and backup 1 freeze.
  lemma {:induction false} FreezeTwo(c: Config, run: seq<State>, first: Space, tail: seq<MetaLog>) returns (run': seq<State>)
    requires IsRun(c, run) && c.primary == 0 && c.backups == [1, 2] && IsReplicated(run[|run| - 1], first)
    requires first.applied == [CUT0] && tail == TailOf([CUT0], c.tailLength)
    ensures IsRun(c, run')
    ensures var s := run'[|run'| - 1];
            s.tails == map[0 := tail, 1 := tail] && s.collected == map[] && s.seal.Open? && s.propagated == {0}
  {
    var s := run[|run| - 1];
    var s1 := s.(primaryFrozen := true, tails := map[0 := tail]);
    assert s.tails[0 := tail] == s1.tails;
    OneMoreStep(c, run, s1, FreezePrimary);
    var s2 := s1.(frozenBackups := {1}, tails := map[0 := tail, 1 := tail]);
    assert s1.frozenBackups + {1} == {1} && s1.tails[1 := tail] == s2.tails;
    run' := FreezesBackup(c, run + [s1], 1, s2);
  }

  /** With three replicas, one of which hears nothing: a metalog is cut, replicated and propagated, and
      then the log is sealed right after it. */
  lemma {:induction false} SealHappens() returns (c: Config, run: seq<State>)
    ensures ValidConfig(c) && IsRun(c, run)
    ensures var last := run[|run| - 1]; last.seal.Sealed? && last.seal.position == 1 && 0 in last.propagated
  {
    c := ThreeReplicas(1);
    var first: Space;
    run, first := Replicates(1);
    run := FreezeTwo(c, run, first, [CUT0]);
    TailsMerge();
    run := Seals(c, run, 0, 1, Sealed(1, [CUT0]));
  }

  /** The same with tails of length 0: the metalog that was propagated lies past the sealed position. */
  lemma {:induction false} EmptyTailsUnsafe() returns (c: Config, run: seq<State>)
    ensures ValidConfig(c) && IsRun(c, run)
    ensures var last := run[|run| - 1]; last.seal.Sealed? && last.seal.position == 0 && 0 in last.propagated
  {
    c := ThreeReplicas(0);
    var first: Space;
    run, first := Replicates(0);
    run := FreezeTwo(c, run, first, []);
    TailsMerge();
    run := Seals(c, run, 0, 1, Sealed(0, []));
  }

  // The second cut reaches backup 2 before the first.
  lemma {:induction false} SecondComesFirst(c: Config, run: seq<State>, m: MetaLog, m': MetaLog, first: Space,
                                            nothing: Space, early: Space) returns (run': seq<State>)
    requires IsRun(c, run) && c.shards == 1 && c.backups == [1, 2] && Chain([m, m'], 1)
    requires var s := run[|run| - 1];
             && s.log == [m] && s.backups == map[1 := first, 2 := nothing] && s.replicated == 1
             && !s.primaryFrozen && s.frozenBackups == {}
    requires ValidSpace(nothing) && WellFormed(m', |nothing.progress|) && early == Provide(nothing, m').space
    requires nothing.position == early.position
    ensures IsRun(c, run')
    ensures run'[|run'| - 1] == run[|run| - 1].(log := [m, m'], backups := map[1 := first, 2 := early])
  {
    var s := run[|run| - 1];
    var s1 := s.(log := [m, m']);
    assert s.log + [m'] == s1.log;
    OneMoreStep(c, run, s1, Cut(m'));
    var s2 := s1.(backups := map[1 := first, 2 := early]);
    assert s1.backups[2 := early] == s2.backups && s1.acks + {} == s2.acks;
    OneMoreStep(c, run + [s1], s2, Deliver(2, 1));
    run' := run + [s1] + [s2];
  }

  // Both backups freeze.
  lemma {:induction false} FreezeBackups(c: Config, run: seq<State>, first: Space, second: Space) returns (run': seq<State>)
    requires IsRun(c, run) && c.backups == [1, 2] && c.tailLength == 1
    requires first.applied == [CUT0] && second.applied == []
    requires var s := run[|run| - 1];
             s.backups == map[1 := first, 2 := second] && s.frozenBackups == {} && s.tails == map[]
    ensures IsRun(c, run')
    ensures var s := run[|run| - 1];
            run'[|run'| - 1] == s.(frozenBackups := {1, 2}, tails := map[1 := [CUT0], 2 := []])
  {
    var s := run[|run| - 1];
    var s1 := s.(frozenBackups := {1}, tails := map[1 := [CUT0]]);
    assert s.frozenBackups + {1} == {1} && s.tails[1 := [CUT0]] == s1.tails;
    run' := FreezesBackup(c, run, 1, s1);
    var s2 := s1.(frozenBackups := {1, 2}, tails := map[1 := [CUT0], 2 := []]);
    assert s1.frozenBackups + {2} == {1, 2} && s1.tails[2 := []] == s2.tails;
    run' := FreezesBackup(c, run', 2, s2);
  }

  // Finalizing a node ends past the final position.
  ghost predicate EndsPast(sp: Space, position: nat, tail: seq<MetaLog>) {
    && ValidSpace(sp) && (forall j :: 0 <= j < |tail| ==> WellFormed(tail[j], |sp.progress|))
    && FinalizeResultAt(sp.position, ProvideAll(sp, tail).space.position, position) == Overshot
  }

  /** A run in which a backup ends past the sealed position: it received the second cut before the
      first, the log was sealed after the first, and the first comes with the sealed tail. */
  lemma {:induction false} BackupOvershoots() returns (c: Config, run: seq<State>, b: nat)
    ensures ValidConfig(c) && IsRun(c, run) && b in c.backups
    ensures var last := run[|run| - 1];
            last.seal.Sealed? && b in last.backups && EndsPast(last.backups[b], last.seal.position, last.seal.tail)
  {
    c, b := ThreeReplicas(1), 2;
    run := SealedEarly();
    EarlyFollows();
    WaitingOvershoots(Early(), CUT0, CUT1);
  }

  lemma {:induction false} SealedEarly() returns (run: seq<State>)
    ensures IsRun(ThreeReplicas(1), run)
    ensures var last := run[|run| - 1];
            last.seal == Sealed(1, [CUT0]) && 2 in last.backups && last.backups[2] == Early()
  {
    var first: Space;
    run, first := Replicates(1);
    CutsChain();
    FirstDelivered();
    run := SecondComesFirst(ThreeReplicas(1), run, CUT0, CUT1, first, Nothing(), Early());
    run := SealedAfterFirst(ThreeReplicas(1), run, first, Early());
  }

  lemma {:induction false} SealedAfterFirst(c: Config, run: seq<State>, first: Space, second: Space) returns (run': seq<State>)
    requires IsRun(c, run) && c.backups == [1, 2] && c.tailLength == 1
    requires first.applied == [CUT0] && second.applied == []
    requires var s := run[|run| - 1];
             && s.backups == map[1 := first, 2 := second] && s.frozenBackups == {} && s.tails == map[]
             && s.collected == map[] && s.seal.Open?
    ensures IsRun(c, run')
    ensures run'[|run'| - 1].seal == Sealed(1, [CUT0]) && run'[|run'| - 1].backups == map[1 := first, 2 := second]
  {
    run' := FreezeBackups(c, run, first, second);
    TailsMerge();
    run' := Seals(c, run', 1, 2, Sealed(1, [CUT0]));
  }

  lemma {:induction false} EarlyFollows()
    ensures Follows(Early(), [CUT0, CUT1]) && Settled(Early(), [CUT0, CUT1])
  {
    var cuts, sp := [CUT0, CUT1], Early();
    CutsChain();
    FreshFollows(Full, {}, 1, cuts);
    assert Follows(sp, cuts);
    EveryCutRelevant(cuts, 1, 0);
    assert Heard(sp) == Shards(1);
    assert Settled(sp, cuts);
  }

  // A space that waits for the first of two cuts gets past both with it.
  lemma {:induction false} WaitingOvershoots(sp: Space, m: MetaLog, m': MetaLog)
    requires Follows(sp, [m, m']) && Settled(sp, [m, m']) && sp.position == 0 && 1 in sp.pending
    ensures EndsPast(sp, 1, [m])
  {
    var cuts := [m, m'];
    FinalizeIff(sp, cuts, [0], 1);
    assert Pick(cuts, [0]) == [m];
    assert Ahead(sp, cuts, 1);
    assert !Misses(sp, cuts, [0], 1);
  }
}
