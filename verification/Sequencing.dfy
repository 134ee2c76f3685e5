/**
 Replication and sealing of one metalog, as a state machine.

 The primary cuts, its backups apply and acknowledge, metalogs held by a quorum
 are propagated, sequencers freeze in any order and the controller seals the view
 from a quorum of frozen tails.  Messages are never lost from `acks` and any cut
 metalog may reach a backup again: the network delays, reorders and duplicates.
 */
module Sequencing {
  import opened MetaLogs
  import opened LogSpaces
  import opened LiteMode
  import opened Ranks
  import opened Sealing

  datatype Config = Config(shards: nat, primary: nat, backups: seq<nat>, tailLength: nat)

  ghost predicate ValidConfig(c: Config) {
    Distinct(c.backups) && c.primary !in c.backups
  }

  // metalog_replicas: the primary and its backups.
  function Replicas(c: Config): nat {
    |c.backups| + 1
  }

  datatype Seal = Open | Sealed(position: nat, tail: seq<MetaLog>)

  datatype State = State(
    log: seq<MetaLog>,
    primaryFrozen: bool,
    progress: map<nat, nat>,
    replicated: nat,
    backups: map<nat, Space>,
    frozenBackups: set<nat>,
    acks: set<(nat, nat)>,
    propagated: set<nat>,
    tails: map<nat, seq<MetaLog>>,
    collected: map<nat, seq<MetaLog>>,
    seal: Seal)

  ghost predicate Init(c: Config, s: State) {
    && s.log == [] && !s.primaryFrozen && s.replicated == 0
    && (forall b :: b in c.backups ==> b in s.progress && s.progress[b] == 0)
    && (forall b :: b in c.backups ==> b in s.backups && s.backups[b] == Fresh(Full, {}, c.shards))
    && s.frozenBackups == {} && s.acks == {} && s.propagated == {}
    && s.tails == map[] && s.collected == map[] && s.seal == Open
  }

  datatype Step =
    | Cut(m: MetaLog)
    | Deliver(backup: nat, k: nat)
    | Acknowledge(backup: nat, position: nat)
    | FreezePrimary
    | FreezeBackup(backup: nat)
    | Collect(node: nat, seal: Seal)

  // MarkNextCutIfDoable: a new cut only when all earlier metalogs are replicated.
  ghost predicate DoCut(c: Config, s: State, s': State, m: MetaLog) {
    && !s.primaryFrozen && s.replicated == |s.log|
    && Chain(s.log + [m], c.shards)
    && s' == s.(log := s.log + [m])
  }

  // OnRecvNewMetaLogs at a backup.
  ghost predicate DoDeliver(c: Config, s: State, s': State, b: nat, k: nat) {
    && b in c.backups && b in s.backups && k < |s.log|
    && if b in s.frozenBackups then s' == s
       else
         && ValidSpace(s.backups[b]) && WellFormed(s.log[k], |s.backups[b].progress|)
         && var sp := Provide(s.backups[b], s.log[k]).space;
            s' == s.(backups := s.backups[b := sp],
                     acks := s.acks + if sp.position > s.backups[b].position then {(b, sp.position)} else {})
  }

  // UpdateMetaLogReplicatedPosition.
  function UpdatedReplicated(c: Config, replicated: nat, position: nat, progress: map<nat, nat>): nat
    requires forall i :: 0 <= i < |c.backups| ==> c.backups[i] in progress
  {
    if replicated == position || c.backups == [] then replicated
    else Sort(Values(c.backups, progress))[|c.backups| / 2]
  }

  // OnRecvMetaLogProgress at the primary; everything newly replicated is propagated.
  ghost predicate DoAcknowledge(c: Config, s: State, s': State, b: nat, p: nat) {
    && (b, p) in s.acks
    && if s.primaryFrozen then s' == s
       else
         && b in s.progress && (forall i :: 0 <= i < |c.backups| ==> c.backups[i] in s.progress)
         && if p > s.progress[b] then
              var progress := s.progress[b := p];
              var r := UpdatedReplicated(c, s.replicated, |s.log|, progress);
              s' == s.(progress := progress, replicated := r,
                       propagated := s.propagated + (Shards(r) - Shards(s.replicated)))
            else s' == s
  }

  ghost predicate DoFreezePrimary(c: Config, s: State, s': State) {
    !s.primaryFrozen && s' == s.(primaryFrozen := true, tails := s.tails[c.primary := TailOf(s.log, c.tailLength)])
  }

  ghost predicate DoFreezeBackup(c: Config, s: State, s': State, b: nat) {
    && b in c.backups && b in s.backups && b !in s.frozenBackups
    && s' == s.(frozenBackups := s.frozenBackups + {b},
                tails := s.tails[b := TailOf(s.backups[b].applied, c.tailLength)])
  }

  // OnFreezeZNodeCreated at the controller.  The seal is made no earlier than at a quorum of tails,
  // but possibly later: a view is sealed when all of its log spaces have a quorum.
  ghost predicate DoCollect(c: Config, s: State, s': State, node: nat, seal: Seal) {
    && s.seal.Open? && node in s.tails
    && var collected := s.collected[node := s.tails[node]];
       && s' == s.(collected := collected, seal := seal)
       && (seal.Sealed? ==> |collected| >= Quorum(Replicas(c)) && Merges(collected.Values, seal.position, seal.tail))
  }

  ghost predicate NextStep(c: Config, s: State, s': State, step: Step) {
    match step
    case Cut(m) => DoCut(c, s, s', m)
    case Deliver(b, k) => DoDeliver(c, s, s', b, k)
    case Acknowledge(b, p) => DoAcknowledge(c, s, s', b, p)
    case FreezePrimary => DoFreezePrimary(c, s, s')
    case FreezeBackup(b) => DoFreezeBackup(c, s, s', b)
    case Collect(node, seal) => DoCollect(c, s, s', node, seal)
  }

  ghost predicate Next(c: Config, s: State, s': State) {
    exists step :: NextStep(c, s, s', step)
  }

  ghost predicate IsRun(c: Config, run: seq<State>) {
    && run != []
    && if |run| == 1 then Init(c, run[0])
       else IsRun(c, run[..|run| - 1]) && Next(c, run[|run| - 2], run[|run| - 1])
  }

  // ------------------------------------------------------------------------
  // Invariant

  // The backups follow the primary's run of cuts.
  ghost predicate Following(c: Config, log: seq<MetaLog>, backups: map<nat, Space>) {
    && Chain(log, c.shards)
    && forall b :: b in c.backups ==> b in backups && FollowsFully(backups[b], log, c.shards)
  }

  ghost predicate FollowsFully(sp: Space, log: seq<MetaLog>, shards: nat) {
    sp.mode.Full? && |sp.progress| == shards && Follows(sp, log) && Settled(sp, log)
  }

  ghost predicate Numbered(log: seq<MetaLog>) {
    forall k :: 0 <= k < |log| ==> log[k].seqnum == k
  }

  ghost predicate Prefixes(c: Config, log: seq<MetaLog>, backups: map<nat, Space>) {
    forall b :: b in c.backups ==>
      b in backups && backups[b].position <= |log| && backups[b].applied == log[..backups[b].position]
  }

  ghost predicate AcksHonest(c: Config, acks: set<(nat, nat)>, progress: map<nat, nat>, backups: map<nat, Space>) {
    && (forall b, p :: (b, p) in acks ==> b in c.backups && b in backups && p <= backups[b].position)
    && (forall b :: b in c.backups ==> b in progress && b in backups && progress[b] <= backups[b].position)
  }

  ghost predicate ReplicatedRight(c: Config, cut: nat, progress: map<nat, nat>, replicated: nat, propagated: set<nat>) {
    && (forall i :: 0 <= i < |c.backups| ==> c.backups[i] in progress)
    && replicated == ReplicatedOf(c.backups, progress)
    && replicated <= cut <= replicated + 1
    && forall k :: k in propagated ==> k < replicated
  }

  // The metalogs a sequencer holds.
  function Copy(c: Config, log: seq<MetaLog>, backups: map<nat, Space>, node: nat): seq<MetaLog> {
    if node == c.primary then log else if node in backups then backups[node].applied else []
  }

  ghost predicate TailsRight(c: Config, log: seq<MetaLog>, primaryFrozen: bool, backups: map<nat, Space>,
                             frozenBackups: set<nat>, tails: map<nat, seq<MetaLog>>)
  {
    forall node :: node in tails ==>
      && (if node == c.primary then primaryFrozen else node in c.backups && node in frozenBackups)
      && tails[node] == TailOf(Copy(c, log, backups, node), c.tailLength)
  }

  ghost predicate SealRight(c: Config, tails: map<nat, seq<MetaLog>>, collected: map<nat, seq<MetaLog>>, seal: Seal) {
    && (forall node :: node in collected ==> node in tails && collected[node] == tails[node])
    && (seal.Sealed? ==> |collected| >= Quorum(Replicas(c)) && Merges(collected.Values, seal.position, seal.tail))
  }

  ghost predicate Inv(c: Config, s: State) {
    && Numbered(s.log)
    && Prefixes(c, s.log, s.backups)
    && AcksHonest(c, s.acks, s.progress, s.backups)
    && ReplicatedRight(c, |s.log|, s.progress, s.replicated, s.propagated)
    && TailsRight(c, s.log, s.primaryFrozen, s.backups, s.frozenBackups, s.tails)
    && SealRight(c, s.tails, s.collected, s.seal)
  }

  lemma {:induction false} InitInv(c: Config, s: State)
    requires ValidConfig(c) && Init(c, s)
    ensures Following(c, s.log, s.backups) && Inv(c, s)
  {
    FreshFollows(Full, {}, c.shards, []);
    if c.backups != [] {
      assert forall b :: b in c.backups ==> s.progress[b] == 0;
      RankBound(Values(c.backups, s.progress), |c.backups| / 2, 0);
    }
  }

  lemma {:induction false} CutFollowing(c: Config, log: seq<MetaLog>, backups: map<nat, Space>, m: MetaLog)
    requires Following(c, log, backups) && Chain(log + [m], c.shards)
    ensures Following(c, log + [m], backups)
  {
    forall b | b in c.backups
      ensures FollowsFully(backups[b], log + [m], c.shards)
    {
      FollowsMore(backups[b], log, m);
    }
  }

  lemma {:induction false} DeliverFollowing(sp: Space, log: seq<MetaLog>, shards: nat, k: nat)
    requires FollowsFully(sp, log, shards) && k < |log|
    ensures WellFormed(log[k], shards) && FollowsFully(Provide(sp, log[k]).space, log, shards)
  {
    ProvideFollows(sp, log, k);
  }

  // The tail of a frozen sequencer does not change any more.
  lemma {:induction false} TailsStay(c: Config, log: seq<MetaLog>, log': seq<MetaLog>, primaryFrozen: bool,
                                     backups: map<nat, Space>, backups': map<nat, Space>, frozenBackups: set<nat>,
                                     tails: map<nat, seq<MetaLog>>)
    requires TailsRight(c, log, primaryFrozen, backups, frozenBackups, tails)
    requires primaryFrozen ==> log' == log
    requires forall b :: b in frozenBackups ==>
               (b in backups' <==> b in backups) && (b in backups ==> backups'[b] == backups[b])
    ensures TailsRight(c, log', primaryFrozen, backups', frozenBackups, tails)
  {
  }

  lemma {:induction false} CutInv(c: Config, s: State, s': State, m: MetaLog)
    requires ValidConfig(c) && Inv(c, s) && m.seqnum == |s.log|
    requires !s.primaryFrozen && s.replicated == |s.log| && s' == s.(log := s.log + [m])
    ensures Inv(c, s')
  {
    TailsStay(c, s.log, s'.log, s.primaryFrozen, s.backups, s.backups, s.frozenBackups, s.tails);
    CutPrefixes(c, s.log, m, s.backups);
  }

  lemma {:induction false} CutPrefixes(c: Config, log: seq<MetaLog>, m: MetaLog, backups: map<nat, Space>)
    requires Prefixes(c, log, backups)
    ensures Prefixes(c, log + [m], backups)
  {
  }

  lemma {:induction false} DeliverInv(c: Config, s: State, s': State, b: nat, sp: Space)
    requires ValidConfig(c) && Inv(c, s) && b in c.backups && b !in s.frozenBackups
    requires s.backups[b].position <= sp.position <= |s.log| && sp.applied == s.log[..sp.position]
    requires s'.acks <= s.acks + {(b, sp.position)}
    requires s' == s.(backups := s.backups[b := sp], acks := s'.acks)
    ensures Inv(c, s')
  {
    TailsStay(c, s.log, s.log, s.primaryFrozen, s.backups, s'.backups, s.frozenBackups, s.tails);
    DeliverAcks(c, s.acks, s'.acks, s.progress, s.backups, b, sp);
    assert Prefixes(c, s.log, s'.backups);
  }

  lemma {:induction false} DeliverAcks(c: Config, acks: set<(nat, nat)>, acks': set<(nat, nat)>,
                                       progress: map<nat, nat>,
                                       backups: map<nat, Space>, b: nat, sp: Space)
    requires AcksHonest(c, acks, progress, backups) && b in c.backups && backups[b].position <= sp.position
    requires acks' <= acks + {(b, sp.position)}
    ensures AcksHonest(c, acks', progress, backups[b := sp])
  {
  }

  lemma {:induction false} ReplicatedGrows(c: Config, s: State, progress: map<nat, nat>)
    requires ReplicatedRight(c, |s.log|, s.progress, s.replicated, s.propagated)
    requires forall b :: b in c.backups ==> b in s.progress && b in progress && s.progress[b] <= progress[b] <= |s.log|
    ensures s.replicated <= ReplicatedOf(c.backups, progress) <= |s.log|
    ensures ReplicatedOf(c.backups, progress) == UpdatedReplicated(c, s.replicated, |s.log|, progress)
  {
    ReplicatedMoves(c.backups, s.progress, progress, |s.log|);
  }

  lemma {:induction false} AcknowledgeInv(c: Config, s: State, s': State, b: nat, p: nat)
    requires ValidConfig(c) && Inv(c, s) && DoAcknowledge(c, s, s', b, p)
    ensures Inv(c, s') && s.replicated <= s'.replicated && s.propagated <= s'.propagated
  {
    if !s.primaryFrozen && p > s.progress[b] {
      ReplicatedGrows(c, s, s'.progress);
    }
  }

  lemma {:induction false} FreezePrimaryInv(c: Config, s: State, s': State)
    requires ValidConfig(c) && Inv(c, s) && DoFreezePrimary(c, s, s')
    ensures Inv(c, s')
  {
    assert c.primary !in s.tails;
  }

  lemma {:induction false} FreezeBackupInv(c: Config, s: State, s': State, b: nat)
    requires ValidConfig(c) && Inv(c, s) && DoFreezeBackup(c, s, s', b)
    ensures Inv(c, s')
  {
    assert b !in s.tails;
  }

  lemma {:induction false} CollectInv(c: Config, s: State, s': State, node: nat, seal: Seal)
    requires ValidConfig(c) && Inv(c, s) && DoCollect(c, s, s', node, seal)
    ensures Inv(c, s')
  {
  }

  lemma {:induction false} StepFollowing(c: Config, s: State, s': State, step: Step)
    requires Following(c, s.log, s.backups) && NextStep(c, s, s', step)
    ensures Following(c, s'.log, s'.backups)
  {
    match step
    case Cut(m) => CutFollowing(c, s.log, s.backups, m);
    case Deliver(b, k) =>
      if b !in s.frozenBackups {
        DeliverFollowing(s.backups[b], s.log, c.shards, k);
      }
    case _ =>
  }

  lemma {:induction false} StepInv(c: Config, s: State, s': State, step: Step)
    requires ValidConfig(c) && Following(c, s.log, s.backups) && Inv(c, s) && NextStep(c, s, s', step)
    ensures Inv(c, s')
  {
    match step
    case Cut(m) =>
      assert Continues(s'.log, |s.log|, c.shards);
      CutInv(c, s, s', m);
    case Deliver(b, k) =>
      if b !in s.frozenBackups {
        DeliverFollowing(s.backups[b], s.log, c.shards, k);
        DeliverInv(c, s, s', b, s'.backups[b]);
      }
    case Acknowledge(b, p) => AcknowledgeInv(c, s, s', b, p);
    case FreezePrimary => FreezePrimaryInv(c, s, s');
    case FreezeBackup(b) => FreezeBackupInv(c, s, s', b);
    case Collect(node, seal) => CollectInv(c, s, s', node, seal);
  }

  lemma {:induction false} RunInv(c: Config, run: seq<State>)
    requires ValidConfig(c) && IsRun(c, run)
    ensures var s := run[|run| - 1]; Following(c, s.log, s.backups) && Inv(c, s)
  {
    if |run| == 1 {
      InitInv(c, run[0]);
    } else {
      var front, s, s' := run[..|run| - 1], run[|run| - 2], run[|run| - 1];
      assert front[|front| - 1] == s;
      RunInv(c, front);
      var step :| NextStep(c, s, s', step);
      StepFollowing(c, s, s', step);
      StepInv(c, s, s', step);
    }
  }

  // ------------------------------------------------------------------------
  // Replication

  ghost function NodesOf(c: Config): set<nat> {
    {c.primary} + Members(c.backups)
  }

  ghost function Members(ids: seq<nat>): set<nat> {
    set b | b in ids
  }

  // The sequencers holding all metalogs below x.
  ghost function CopiesBelow(c: Config, s: State, x: nat): set<nat> {
    set node | node in NodesOf(c) && |Copy(c, s.log, s.backups, node)| >= x
  }

  /** In every reachable state every backup holds a prefix of the primary's metalogs, a majority of
      the copies holds everything below the replicated position, and at most one metalog is beyond it. */
  lemma {:induction false} ReplicationInvariant(c: Config, run: seq<State>)
    requires ValidConfig(c) && IsRun(c, run)
    ensures var s := run[|run| - 1];
            && (forall b :: b in c.backups ==> b in s.backups && s.backups[b].applied <= s.log)
            && s.replicated <= |s.log| <= s.replicated + 1
            && (c.backups != [] ==> |CopiesBelow(c, s, s.replicated)| >= Replicas(c) / 2 + 1)
  {
    RunInv(c, run);
    var s := run[|run| - 1];
    if c.backups != [] {
      HoldersAreCopies(c, s);
    }
  }

  lemma {:induction false} HoldersAreCopies(c: Config, s: State)
    requires ValidConfig(c) && Inv(c, s) && c.backups != []
    ensures |CopiesBelow(c, s, s.replicated)| >= Replicas(c) / 2 + 1
  {
    var holders := Holders(c.backups, s.progress, s.replicated);
    ReplicatedIsHeld(c.backups, s.progress);
    assert holders + {c.primary} <= CopiesBelow(c, s, s.replicated);
    SubsetSize(holders + {c.primary}, CopiesBelow(c, s, s.replicated));
  }

  lemma {:induction false} SubsetSize(a: set<nat>, b: set<nat>)
    requires a <= b
    ensures |a| <= |b|
  {
    if a != {} {
      var x :| x in a;
      SubsetSize(a - {x}, b - {x});
    }
  }

  /** No step takes back a metalog, the replicated position, a propagation or a seal. */
  lemma {:induction false} StepsOnlyGrow(c: Config, s: State, s': State, step: Step)
    requires ValidConfig(c) && Inv(c, s) && NextStep(c, s, s', step)
    ensures s.log <= s'.log && s.replicated <= s'.replicated && s.propagated <= s'.propagated
    ensures s.seal.Sealed? ==> s'.seal == s.seal
  {
    if step.Acknowledge? {
      AcknowledgeInv(c, s, s', step.backup, step.position);
    }
  }

  // ------------------------------------------------------------------------
  // Seal safety

  lemma {:induction false} QuorumsMeet(a: set<nat>, b: set<nat>, all: set<nat>)
    requires a <= all && b <= all && |a| + |b| > |all|
    ensures exists x :: x in a && x in b
  {
    assert |a + b| == |a| + |b| - |a * b|;
    SubsetSize(a + b, all);
    assert a * b != {};
    var x :| x in a * b;
  }

  lemma {:induction false} NodeCount(ids: seq<nat>)
    requires Distinct(ids)
    ensures |Members(ids)| == |ids|
  {
    if ids == [] {
      assert Members(ids) == {};
    } else {
      var front, last := ids[..|ids| - 1], ids[|ids| - 1];
      NodeCount(front);
      assert ids == front + [last];
      assert Members(ids) == Members(front) + {last};
      assert last !in Members(front);
    }
  }

  lemma {:induction false} CopySeqnum(c: Config, s: State, node: nat, k: nat)
    requires Numbered(s.log) && Prefixes(c, s.log, s.backups) && (node == c.primary || node in c.backups)
    requires k < |Copy(c, s.log, s.backups, node)|
    ensures k < |s.log| && Copy(c, s.log, s.backups, node)[k] == s.log[k] && s.log[k].seqnum == k
  {
  }

  // A sealed position is past everything any collected sequencer held when it froze.
  lemma {:induction false} SealCoversCollected(c: Config, s: State, node: nat)
    requires ValidConfig(c) && Inv(c, s) && s.seal.Sealed? && node in s.collected && c.tailLength >= 1
    ensures |Copy(c, s.log, s.backups, node)| <= s.seal.position
  {
    var copy := Copy(c, s.log, s.backups, node);
    if copy != [] {
      CopySeqnum(c, s, node, |copy| - 1);
      assert s.collected[node] == TailOf(copy, c.tailLength);
      LastOfTail(copy, c.tailLength);
      SealCoversTail(s.collected, s.seal, node, copy[|copy| - 1]);
    }
  }

  lemma {:induction false} LastOfTail(copy: seq<MetaLog>, length: nat)
    requires copy != [] && length >= 1
    ensures copy[|copy| - 1] in TailOf(copy, length)
  {
    var tail := TailOf(copy, length);
    assert tail[|tail| - 1] == copy[|copy| - 1];
  }

  lemma {:induction false} SealCoversTail(collected: map<nat, seq<MetaLog>>, seal: Seal, node: nat, m: MetaLog)
    requires seal.Sealed? && Merges(collected.Values, seal.position, seal.tail)
    requires node in collected && m in collected[node]
    ensures m.seqnum < seal.position
  {
    assert collected[node] in collected.Values;
    assert Carries(seal.tail, m.seqnum);
  }

  lemma {:induction false} CollectedInLog(c: Config, s: State, node: nat, m: MetaLog)
    requires ValidConfig(c) && Inv(c, s) && node in s.collected && m in s.collected[node]
    ensures m.seqnum < |s.log| && m == s.log[m.seqnum]
  {
    var copy := Copy(c, s.log, s.backups, node);
    assert s.collected[node] == TailOf(copy, c.tailLength);
    var k := TailMember(copy, c.tailLength, m);
    CopySeqnum(c, s, node, k);
  }

  /** The sealed tail holds every one of the last `tailLength` metalogs below the sealed position. */
  lemma {:induction false} SealHoldsTail(c: Config, s: State, k: nat)
    requires ValidConfig(c) && Inv(c, s) && s.seal.Sealed? && k < s.seal.position <= k + c.tailLength
    ensures Carries(s.seal.tail, k)
  {
    var node := LongestCollected(c, s);
    CopySeqnum(c, s, node, k);
    TailCarried(s.collected, s.seal, node, Copy(c, s.log, s.backups, node), c.tailLength, k);
  }

  // The sequencer whose metalogs end at the sealed position.
  lemma {:induction false} LongestCollected(c: Config, s: State) returns (node: nat)
    requires ValidConfig(c) && Inv(c, s) && s.seal.Sealed? && s.seal.position > 0 && c.tailLength >= 1
    ensures node in s.collected && |Copy(c, s.log, s.backups, node)| == s.seal.position
    ensures s.collected[node] == TailOf(Copy(c, s.log, s.backups, node), c.tailLength)
    ensures node == c.primary || node in c.backups
  {
    var last := s.seal.tail[|s.seal.tail| - 1];
    var p :| p in s.collected.Values && last in p;
    node :| node in s.collected && s.collected[node] == p;
    var i := TailMember(Copy(c, s.log, s.backups, node), c.tailLength, last);
    CopySeqnum(c, s, node, i);
    SealCoversCollected(c, s, node);
  }

  lemma {:induction false} TailCarried(collected: map<nat, seq<MetaLog>>, seal: Seal, node: nat, copy: seq<MetaLog>,
                                       length: nat, k: nat)
    requires seal.Sealed? && Merges(collected.Values, seal.position, seal.tail)
    requires node in collected && collected[node] == TailOf(copy, length)
    requires k < |copy| <= k + length && copy[k].seqnum == k
    ensures Carries(seal.tail, k)
  {
    TailIs(copy, length);
    assert collected[node] in collected.Values && copy[k] in collected[node];
  }

  lemma {:induction false} TailMember(copy: seq<MetaLog>, length: nat, m: MetaLog) returns (k: nat)
    requires m in TailOf(copy, length)
    ensures k < |copy| && copy[k] == m
  {
    var p := TailOf(copy, length);
    var i :| 0 <= i < |p| && p[i] == m;
    k := |copy| - |p| + i;
  }

  // ... and the merged tail holds nothing that was never cut.
  lemma {:induction false} SealWithinLog(c: Config, s: State)
    requires ValidConfig(c) && Inv(c, s) && s.seal.Sealed?
    ensures s.seal.position <= |s.log|
    ensures forall j :: 0 <= j < |s.seal.tail| ==>
              s.seal.tail[j].seqnum < |s.log| && s.seal.tail[j] == s.log[s.seal.tail[j].seqnum]
  {
    forall j | 0 <= j < |s.seal.tail|
      ensures s.seal.tail[j].seqnum < |s.log| && s.seal.tail[j] == s.log[s.seal.tail[j].seqnum]
    {
      var p :| p in s.collected.Values && s.seal.tail[j] in p;
      var node :| node in s.collected && s.collected[node] == p;
      CollectedInLog(c, s, node, s.seal.tail[j]);
    }
  }

  // Everything propagated lies below the sealed position, nothing past it is replicated, and no
  // sequencer is more than one metalog past it.
  ghost predicate SealedSafely(c: Config, s: State)
    requires s.seal.Sealed?
  {
    && s.replicated <= s.seal.position <= |s.log| <= s.seal.position + 1
    && (forall k :: k in s.propagated ==> k < s.seal.position)
    && forall b :: b in c.backups ==> b in s.backups && s.backups[b].position <= s.seal.position + 1
  }

  // Frozen tails are not cut down to nothing, or nothing has been replicated.
  ghost predicate TailsSuffice(c: Config, s: State) {
    c.tailLength >= 1 || s.replicated == 0
  }

  /** Seal safety.  Once a quorum of frozen tails has fixed the final position, everything ever
      propagated lies below it, nothing at or past it is or becomes replicated, and no sequencer is
      more than one metalog past it: the "See the future" abort cannot happen.  This is so if and
      only if the tails that sequencers report are not configured to be empty. */
  lemma {:induction false} SealSafety(c: Config, s: State)
    requires ValidConfig(c) && Inv(c, s) && s.seal.Sealed?
    ensures SealedSafely(c, s) <==> TailsSuffice(c, s)
    ensures c.tailLength == 0 ==> s.seal.position == 0
  {
    SealWithinLog(c, s);
    if c.tailLength == 0 {
      EmptyTails(c, s);
    } else {
      ReplicatedBelowSeal(c, s);
    }
    SafelyIff(c, s);
  }

  lemma {:induction false} SafelyIff(c: Config, s: State)
    requires s.seal.Sealed? && s.seal.position <= |s.log| <= s.replicated + 1 && s.replicated <= |s.log|
    requires Prefixes(c, s.log, s.backups) && forall k :: k in s.propagated ==> k < s.replicated
    requires if c.tailLength == 0 then s.seal.position == 0 else s.replicated <= s.seal.position
    ensures SealedSafely(c, s) <==> TailsSuffice(c, s)
  {
  }

  lemma {:induction false} ReplicatedBelowSeal(c: Config, s: State)
    requires ValidConfig(c) && Inv(c, s) && s.seal.Sealed? && c.tailLength >= 1
    ensures s.replicated <= s.seal.position
  {
    if c.backups != [] {
      var x := HolderCollected(c, s);
      SealCoversCollected(c, s, x);
    }
  }

  lemma {:induction false} EmptyTails(c: Config, s: State)
    requires ValidConfig(c) && Inv(c, s) && s.seal.Sealed? && c.tailLength == 0
    ensures s.seal.position == 0
  {
    forall p | p in s.collected.Values
      ensures p == []
    {
      var node :| node in s.collected && s.collected[node] == p;
    }
    NoTail(s.collected.Values, s.seal);
  }

  lemma {:induction false} NoTail(parts: set<seq<MetaLog>>, seal: Seal)
    requires seal.Sealed? && Merges(parts, seal.position, seal.tail) && forall p :: p in parts ==> p == []
    ensures seal.position == 0
  {
  }

  // Some sequencer that holds all replicated metalogs is among the frozen ones collected.
  lemma {:induction false} HolderCollected(c: Config, s: State) returns (x: nat)
    requires ValidConfig(c) && Inv(c, s) && s.seal.Sealed? && c.backups != []
    ensures x in s.collected && |Copy(c, s.log, s.backups, x)| >= s.replicated
  {
    var holders := CopiesBelow(c, s, s.replicated);
    HoldersAreCopies(c, s);
    NodeCount(c.backups);
    assert |NodesOf(c)| == Replicas(c);
    assert s.collected.Keys <= NodesOf(c);
    QuorumsMeet(holders, s.collected.Keys, NodesOf(c));
    x :| x in holders && x in s.collected.Keys;
  }

  /** Over whole runs: a seal made at some point of a run holds at every later point, so a metalog
      propagated even after the seal, from acks sent before the freeze, is below the sealed position. */
  lemma {:induction false} SealSafetyOfRuns(c: Config, run: seq<State>, i: nat)
    requires ValidConfig(c) && IsRun(c, run) && i < |run| && run[i].seal.Sealed?
    ensures var last := run[|run| - 1];
            last.seal == run[i].seal && (SealedSafely(c, last) <==> TailsSuffice(c, last))
  {
    SealStays(c, run, i);
    RunInv(c, run);
    SealSafety(c, run[|run| - 1]);
  }

  lemma {:induction false} SealStays(c: Config, run: seq<State>, i: nat)
    requires ValidConfig(c) && IsRun(c, run) && i < |run| && run[i].seal.Sealed?
    ensures run[|run| - 1].seal == run[i].seal
    decreases |run|
  {
    if i < |run| - 1 {
      var front, s, s' := run[..|run| - 1], run[|run| - 2], run[|run| - 1];
      assert front[|front| - 1] == s;
      SealStays(c, front, i);
      var step :| NextStep(c, s, s', step);
      StepKeepsSeal(c, s, s', step);
    }
  }

  lemma {:induction false} StepKeepsSeal(c: Config, s: State, s': State, step: Step)
    requires NextStep(c, s, s', step)
    ensures s.seal.Sealed? ==> s'.seal == s.seal
  {
  }
}
