/**
 Sealing a whole view.

 A view has several log spaces, each run by its own primary and backups, and one
 controller.  A frozen sequencer sends the controller one report with its tails of
 several log spaces.  What the controller makes of the reports is, for every log
 space, a run of `Sequencing`.
 */
module ViewSeals {
  import opened MetaLogs
  import opened Sealing
  import S = Sequencing

  // The log spaces of a view have different primaries and the same number of replicas.
  ghost predicate ValidView(cs: seq<S.Config>, replicas: nat) {
    && (forall j :: 0 <= j < |cs| ==> S.ValidConfig(cs[j]) && S.Replicas(cs[j]) == replicas)
    && forall i, j :: 0 <= i < j < |cs| ==> cs[i].primary != cs[j].primary
  }

  function Phylogs(cs: seq<S.Config>): seq<nat> {
    seq(|cs|, j requires 0 <= j < |cs| => cs[j].primary)
  }

  datatype State = State(
    spaces: seq<S.State>,
    reports: seq<Report>,
    ongoing: bool,
    positions: seq<nat>,
    finals: seq<seq<MetaLog>>)

  datatype Step =
    | Inside(space: nat, step: S.Step)
    | Receive(report: Report)

  ghost predicate Init(cs: seq<S.Config>, v: State) {
    && |v.spaces| == |cs| && (forall j :: 0 <= j < |cs| ==> S.Init(cs[j], v.spaces[j]))
    && v.reports == [] && v.ongoing
  }

  // The report holds tails that the sequencer has frozen.
  ghost predicate Honest(cs: seq<S.Config>, spaces: seq<S.State>, report: Report) {
    |spaces| == |cs| &&
    forall j, i :: 0 <= j < |cs| && 0 <= i < |report.frozen| && PhylogOf(report.frozen[i].logspaceId) == cs[j].primary ==>
      report.node in spaces[j].tails && report.frozen[i].metalogs == spaces[j].tails[report.node]
  }

  // OnFreezeZNodeCreated, as the controller does it and as one log space sees it.
  ghost predicate DoReceive(cs: seq<S.Config>, replicas: nat, v: State, v': State, report: Report) {
    && Honest(cs, v.spaces, report)
    && if !v.ongoing then v' == v
       else
         && v'.reports == v.reports + [report]
         && (v'.ongoing <==> !AllReported(v'.reports, Phylogs(cs), replicas))
         && (!v'.ongoing ==> Finals(AfterReports(v'.reports), Phylogs(cs), v'.positions, v'.finals))
         && |v'.spaces| == |v.spaces|
         && forall j :: 0 <= j < |cs| ==> v'.spaces[j] == Told(cs[j], v.spaces[j], v', j, report)
  }

  // A log space after a report.
  ghost function Told(c: S.Config, s: S.State, v': State, j: nat, report: Report): S.State
    requires Mentions(report.frozen, c.primary) ==> report.node in s.tails
    requires !v'.ongoing ==> j < |v'.positions| == |v'.finals|
  {
    s.(collected := if Mentions(report.frozen, c.primary) then s.collected[report.node := s.tails[report.node]]
                    else s.collected,
       seal := if v'.ongoing then S.Open else S.Sealed(v'.positions[j], v'.finals[j]))
  }

  ghost predicate NextStep(cs: seq<S.Config>, replicas: nat, v: State, v': State, step: Step) {
    match step
    case Inside(j, sub) =>
      && j < |cs| == |v.spaces| == |v'.spaces| && !sub.Collect?
      && S.NextStep(cs[j], v.spaces[j], v'.spaces[j], sub)
      && v' == v.(spaces := v.spaces[j := v'.spaces[j]])
    case Receive(report) => DoReceive(cs, replicas, v, v', report)
  }

  ghost predicate Next(cs: seq<S.Config>, replicas: nat, v: State, v': State) {
    exists step :: NextStep(cs, replicas, v, v', step)
  }

  ghost predicate IsRun(cs: seq<S.Config>, replicas: nat, run: seq<State>) {
    && run != []
    && if |run| == 1 then Init(cs, run[0])
       else IsRun(cs, replicas, run[..|run| - 1]) && Next(cs, replicas, run[|run| - 2], run[|run| - 1])
  }

  // What the controller keeps of a log space is what its state machine has collected and sealed.
  ghost predicate Agrees(cs: seq<S.Config>, v: State, j: nat) {
    && j < |cs| == |v.spaces|
    && TailsOf(AfterReports(v.reports), cs[j].primary) == v.spaces[j].collected
    && (v.ongoing ==> v.spaces[j].seal == S.Open)
    && (!v.ongoing ==> j < |v.positions| == |v.finals| && v.spaces[j].seal == S.Sealed(v.positions[j], v.finals[j]))
  }

  // The tails of a log space after one more report of frozen tails.
  lemma {:induction false} OneMoreReport(cs: seq<S.Config>, v: State, report: Report, j: nat)
    requires Agrees(cs, v, j) && Honest(cs, v.spaces, report)
    ensures Mentions(report.frozen, cs[j].primary) ==> report.node in v.spaces[j].tails
    ensures TailsOf(AfterReports(v.reports + [report]), cs[j].primary)
         == if Mentions(report.frozen, cs[j].primary)
            then v.spaces[j].collected[report.node := v.spaces[j].tails[report.node]] else v.spaces[j].collected
  {
    var reports := v.reports + [report];
    assert reports[..|reports| - 1] == v.reports;
    if Mentions(report.frozen, cs[j].primary) {
      var i := LastMention(report.frozen, cs[j].primary);
      LastTail(AfterReports(v.reports), report.node, report.frozen, cs[j].primary, i);
    } else {
      OtherTails(AfterReports(v.reports), report.node, report.frozen, cs[j].primary);
    }
  }

  // A seal of the controller is one the log space's own state machine may make.
  lemma {:induction false} SealAllowed(cs: seq<S.Config>, replicas: nat, reports: seq<Report>, positions: seq<nat>,
                                       finals: seq<seq<MetaLog>>, j: nat)
    requires ValidView(cs, replicas) && j < |cs| && AllReported(reports, Phylogs(cs), replicas)
    requires Finals(AfterReports(reports), Phylogs(cs), positions, finals)
    ensures var tails := TailsOf(AfterReports(reports), cs[j].primary);
            |tails| >= Quorum(S.Replicas(cs[j])) && Merges(tails.Values, positions[j], finals[j])
  {
    AllQuorums(reports, Phylogs(cs), replicas);
    assert Phylogs(cs)[j] == cs[j].primary;
    assert HasQuorum(AfterReports(reports), Phylogs(cs)[j], replicas);
  }

  // The report is a step of the log space, or none of its business.
  lemma {:induction false} ReceiveProjects(cs: seq<S.Config>, replicas: nat, v: State, v': State, report: Report, j: nat)
    requires ValidView(cs, replicas) && Agrees(cs, v, j) && DoReceive(cs, replicas, v, v', report)
    requires S.SealRight(cs[j], v.spaces[j].tails, v.spaces[j].collected, v.spaces[j].seal)
    ensures Agrees(cs, v', j) && (v'.spaces[j] == v.spaces[j] || S.Next(cs[j], v.spaces[j], v'.spaces[j]))
  {
    if v.ongoing {
      var c, s, s' := cs[j], v.spaces[j], v'.spaces[j];
      OneMoreReport(cs, v, report, j);
      if !v'.ongoing {
        SealAllowed(cs, replicas, v'.reports, v'.positions, v'.finals, j);
      }
      if Mentions(report.frozen, c.primary) {
        assert S.NextStep(c, s, s', S.Collect(report.node, s'.seal));
      } else if !v'.ongoing {
        Recollect(c, s, s');
      }
    }
  }

  // A seal without a new tail is one with a tail collected before.
  lemma {:induction false} Recollect(c: S.Config, s: S.State, s': S.State)
    requires s.seal.Open? && S.SealRight(c, s.tails, s.collected, s.seal) && s'.seal.Sealed?
    requires |s.collected| >= Quorum(S.Replicas(c)) && Merges(s.collected.Values, s'.seal.position, s'.seal.tail)
    requires s' == s.(seal := s'.seal)
    ensures S.Next(c, s, s')
  {
    assert |s.collected.Keys| > 0;
    var node :| node in s.collected;
    assert s.collected[node := s.tails[node]] == s.collected;
    assert S.NextStep(c, s, s', S.Collect(node, s'.seal));
  }

  /** In every run of a view, every log space goes through a run of its own state machine, and the
      controller holds exactly the tails collected there and seals exactly what is sealed there. */
  lemma {:induction false} ViewProjects(cs: seq<S.Config>, replicas: nat, run: seq<State>, j: nat) returns (srun: seq<S.State>)
    requires ValidView(cs, replicas) && IsRun(cs, replicas, run) && j < |cs|
    ensures Agrees(cs, run[|run| - 1], j)
    ensures S.IsRun(cs[j], srun) && srun[|srun| - 1] == run[|run| - 1].spaces[j]
  {
    if |run| == 1 {
      NothingCollected(cs, run[0], j);
      srun := [run[0].spaces[j]];
    } else {
      var front, v, v' := run[..|run| - 1], run[|run| - 2], run[|run| - 1];
      assert front[|front| - 1] == v;
      srun := ViewProjects(cs, replicas, front, j);
      S.RunInv(cs[j], srun);
      var step :| NextStep(cs, replicas, v, v', step);
      StepProjects(cs, replicas, v, v', step, j);
      if v'.spaces[j] != v.spaces[j] {
        assert (srun + [v'.spaces[j]])[..|srun|] == srun;
        srun := srun + [v'.spaces[j]];
      }
    }
  }

  lemma {:induction false} NothingCollected(cs: seq<S.Config>, v: State, j: nat)
    requires Init(cs, v) && j < |cs|
    ensures Agrees(cs, v, j)
  {
    var none: map<(nat, nat), seq<MetaLog>> := map[];
    assert TailsOf(none, cs[j].primary) == map[];
  }

  lemma {:induction false} StepProjects(cs: seq<S.Config>, replicas: nat, v: State, v': State, step: Step, j: nat)
    requires ValidView(cs, replicas) && Agrees(cs, v, j) && NextStep(cs, replicas, v, v', step)
    requires S.SealRight(cs[j], v.spaces[j].tails, v.spaces[j].collected, v.spaces[j].seal)
    ensures Agrees(cs, v', j) && (v'.spaces[j] == v.spaces[j] || S.Next(cs[j], v.spaces[j], v'.spaces[j]))
  {
    match step
    case Inside(i, sub) =>
      if i == j {
        InsideCollectsNothing(cs[j], v.spaces[j], v'.spaces[j], sub);
      }
    case Receive(report) => ReceiveProjects(cs, replicas, v, v', report, j);
  }

  lemma {:induction false} InsideCollectsNothing(c: S.Config, s: S.State, s': S.State, step: S.Step)
    requires S.NextStep(c, s, s', step) && !step.Collect?
    ensures s'.collected == s.collected && s'.seal == s.seal && S.Next(c, s, s')
  {
  }

  /** Sealing a view is safe for every log space: in every run in which the controller has sealed the view,
      from whatever reports, everything propagated in a log space lies below the position the
      controller published for it and no sequencer is more than one metalog past it, if and only
      if the tails reported there suffice. */
  lemma {:induction false} ViewSealedSafely(cs: seq<S.Config>, replicas: nat, run: seq<State>, j: nat)
    requires ValidView(cs, replicas) && IsRun(cs, replicas, run) && j < |cs| && !run[|run| - 1].ongoing
    ensures var v := run[|run| - 1];
            && j < |v.spaces| && j < |v.positions| == |v.finals|
            && v.spaces[j].seal == S.Sealed(v.positions[j], v.finals[j])
            && (S.SealedSafely(cs[j], v.spaces[j]) <==> S.TailsSuffice(cs[j], v.spaces[j]))
  {
    var srun := ViewProjects(cs, replicas, run, j);
    S.RunInv(cs[j], srun);
    S.SealSafety(cs[j], run[|run| - 1].spaces[j]);
  }
}
