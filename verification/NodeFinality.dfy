/**
 Finalizing engines and storages.

 Metalogs reach a node once propagated or as part of the sealed tail.  Over every
 run no node is ever past the sealed position, so finalizing a node either ends
 exactly there or reports that metalogs are missing.
 */
module NodeFinality {
  import opened MetaLogs
  import opened LogSpaces
  import opened LiteMode
  import opened Finalizing
  import opened Layouts
  import opened Durability
  import opened Sealing
  import S = Sequencing

  // No metalog at or past this position has been published.
  function Limit(q: S.State): nat {
    if q.seal.Sealed? && q.seal.position > q.replicated then q.seal.position else q.replicated
  }

  ghost predicate Within(sp: Space, limit: nat) {
    sp.position <= limit && forall k :: k in sp.pending ==> k < limit
  }

  ghost predicate AllWithin(producers: seq<Producer>, storages: map<nat, Storage>, limit: nat) {
    && (forall e :: 0 <= e < |producers| ==> Within(producers[e].space, limit))
    && (forall id :: id in storages ==> Within(storages[id].space, limit))
  }

  // What is published is replicated, or in a tail that ends at the sealed position.
  ghost predicate Publishable(q: S.State) {
    && (forall k :: k in q.propagated ==> k < q.replicated)
    && (q.seal.Sealed? ==> EndsAt(q.seal.tail, q.seal.position))
  }

  ghost predicate EndsAt(tail: seq<MetaLog>, position: nat) {
    && (forall i, j :: 0 <= i < j < |tail| ==> tail[i].seqnum < tail[j].seqnum)
    && position == if tail == [] then 0 else tail[|tail| - 1].seqnum + 1
  }

  lemma {:induction false} InvPublishable(c: S.Config, q: S.State)
    requires S.Inv(c, q)
    ensures Publishable(q)
  {
  }

  lemma {:induction false} PublishedBelow(q: S.State, k: nat)
    requires Publishable(q) && Published(q, k)
    ensures k < Limit(q)
  {
    if k !in q.propagated {
      TailBelow(q.seal.tail, q.seal.position);
    }
  }

  lemma {:induction false} TailBelow(tail: seq<MetaLog>, position: nat)
    requires EndsAt(tail, position)
    ensures forall j :: 0 <= j < |tail| ==> tail[j].seqnum < position
  {
  }

  lemma {:induction false} LimitGrows(c: S.Config, q: S.State, q': S.State, sub: S.Step)
    requires S.ValidConfig(c) && SequencerRight(c, q) && S.NextStep(c, q, q', sub)
    ensures Limit(q) <= Limit(q')
  {
    S.StepsOnlyGrow(c, q, q', sub);
  }

  lemma {:induction false} ProvideWithin(sp: Space, log: seq<MetaLog>, k: nat, limit: nat)
    requires Follows(sp, log) && Settled(sp, log) && k < |log| && WellFormed(log[k], |sp.progress|)
    requires Within(sp, limit) && k < limit
    ensures Within(Provide(sp, log[k]).space, limit)
  {
    ProvideFollows(sp, log, k);
  }

  lemma {:induction false} EngineWithin(c: S.Config, v: Layout, s: State, s': State, e: nat, k: nat)
    requires ValidSystem(c, v) && Inv(c, v, s) && DoToEngine(s, s', e, k)
    requires AllWithin(s.producers, s.storages, Limit(s.sequencer))
    ensures AllWithin(s'.producers, s'.storages, Limit(s'.sequencer))
  {
    InvPublishable(c, s.sequencer);
    PublishedBelow(s.sequencer, k);
    var p := s.producers[e];
    assert NodeFollows(p.space, p.results, s.sequencer.log, {e}, |v.storagesOf|);
    ProvideWithin(p.space, s.sequencer.log, k, Limit(s.sequencer));
    WithinEngine(s.producers, s.storages, e, s'.producers[e], Limit(s.sequencer));
  }

  lemma {:induction false} WithinEngine(producers: seq<Producer>, storages: map<nat, Storage>, e: nat, p: Producer,
                                        limit: nat)
    requires AllWithin(producers, storages, limit) && Within(p.space, limit) && e < |producers|
    ensures AllWithin(producers[e := p], storages, limit)
  {
  }

  lemma {:induction false} StorageWithin(c: S.Config, v: Layout, s: State, s': State, id: nat, k: nat)
    requires ValidSystem(c, v) && Inv(c, v, s) && DoToStorage(s, s', id, k)
    requires AllWithin(s.producers, s.storages, Limit(s.sequencer))
    ensures AllWithin(s'.producers, s'.storages, Limit(s'.sequencer))
  {
    InvPublishable(c, s.sequencer);
    PublishedBelow(s.sequencer, k);
    var st := s.storages[id];
    assert NodeFollows(st.space, st.sequenced, s.sequencer.log, S.Members(v.sourcesOf[id]), |v.storagesOf|);
    ProvideWithin(st.space, s.sequencer.log, k, Limit(s.sequencer));
    WithinStorage(s.producers, s.storages, id, s'.storages[id], Limit(s.sequencer));
  }

  lemma {:induction false} WithinStorage(producers: seq<Producer>, storages: map<nat, Storage>, id: nat, st: Storage,
                                        limit: nat)
    requires AllWithin(producers, storages, limit) && Within(st.space, limit)
    ensures AllWithin(producers, storages[id := st], limit)
  {
  }

  // A step that moves no log space and publishes nothing.
  ghost predicate Quiet(s: State, s': State) {
    && Limit(s'.sequencer) == Limit(s.sequencer)
    && |s'.producers| == |s.producers| && s'.storages.Keys == s.storages.Keys
    && (forall e :: 0 <= e < |s.producers| ==> s'.producers[e].space == s.producers[e].space)
    && (forall id :: id in s.storages ==> s'.storages[id].space == s.storages[id].space)
  }

  lemma {:induction false} OtherStepsQuiet(c: S.Config, v: Layout, s: State, s': State, step: Step)
    requires NextStep(c, v, s, s', step) && !step.Sequence? && !step.ToEngine? && !step.ToStorage?
    ensures Quiet(s, s')
  {
  }

  lemma {:induction false} WithinMore(producers: seq<Producer>, storages: map<nat, Storage>, limit: nat, limit': nat)
    requires AllWithin(producers, storages, limit) && limit <= limit'
    ensures AllWithin(producers, storages, limit')
  {
  }

  lemma {:induction false} QuietWithin(s: State, s': State)
    requires AllWithin(s.producers, s.storages, Limit(s.sequencer)) && Quiet(s, s')
    ensures AllWithin(s'.producers, s'.storages, Limit(s'.sequencer))
  {
  }

  lemma {:induction false} SequenceWithin(c: S.Config, v: Layout, s: State, s': State, sub: S.Step)
    requires S.ValidConfig(c) && SequencerRight(c, s.sequencer) && NextStep(c, v, s, s', Sequence(sub))
    requires AllWithin(s.producers, s.storages, Limit(s.sequencer))
    ensures AllWithin(s'.producers, s'.storages, Limit(s'.sequencer))
  {
    LimitGrows(c, s.sequencer, s'.sequencer, sub);
    WithinMore(s.producers, s.storages, Limit(s.sequencer), Limit(s'.sequencer));
  }

  lemma {:induction false} StepWithin(c: S.Config, v: Layout, s: State, s': State, step: Step)
    requires ValidSystem(c, v) && Inv(c, v, s) && NextStep(c, v, s, s', step)
    requires AllWithin(s.producers, s.storages, Limit(s.sequencer))
    ensures AllWithin(s'.producers, s'.storages, Limit(s'.sequencer))
  {
    match step {
      case Sequence(sub) => SequenceWithin(c, v, s, s', sub);
      case ToEngine(e, k) => EngineWithin(c, v, s, s', e, k);
      case ToStorage(id, k) => StorageWithin(c, v, s, s', id, k);
      case _ =>
        OtherStepsQuiet(c, v, s, s', step);
        QuietWithin(s, s');
    }
  }

  lemma {:induction false} InitWithin(c: S.Config, v: Layout, s: State)
    requires ValidSystem(c, v) && Init(c, v, s)
    ensures AllWithin(s.producers, s.storages, Limit(s.sequencer))
  {
  }

  lemma {:induction false} RunWithin(c: S.Config, v: Layout, run: seq<State>)
    requires ValidSystem(c, v) && IsRun(c, v, run)
    ensures AllWithin(run[|run| - 1].producers, run[|run| - 1].storages, Limit(run[|run| - 1].sequencer))
  {
    if |run| == 1 {
      InitWithin(c, v, run[0]);
    } else {
      var front, s, s' := run[..|run| - 1], run[|run| - 2], run[|run| - 1];
      assert front[|front| - 1] == s;
      RunWithin(c, v, front);
      RunInv(c, v, front);
      var step :| NextStep(c, v, s, s', step);
      StepWithin(c, v, s, s', step);
    }
  }

  function Numbers(tail: seq<MetaLog>): seq<nat> {
    seq(|tail|, j requires 0 <= j < |tail| => tail[j].seqnum)
  }

  // Every relevant metalog below the sealed position is applied, received or in the tail.
  ghost predicate HasAll(sp: Space, log: seq<MetaLog>, seal: S.Seal)
    requires seal.Sealed? && seal.position <= |log|
  {
    !Misses(sp, log, Numbers(seal.tail), seal.position)
  }

  // How finalizing a node ends.
  ghost predicate Ends(sp: Space, log: seq<MetaLog>, seal: S.Seal)
    requires seal.Sealed? && seal.position <= |log| && ValidSpace(sp)
  {
    && (forall j :: 0 <= j < |seal.tail| ==> WellFormed(seal.tail[j], |sp.progress|))
    && var o := ProvideAll(sp, seal.tail);
       var r := FinalizeResultAt(sp.position, o.space.position, seal.position);
       && (r == SeenFuture <==> sp.position > seal.position + 1)
       && (r == Insufficient <==> !HasAll(sp, log, seal))
       && (r == Finalized <==> HasAll(sp, log, seal) && sp.position <= seal.position + 1)
       && (r == Finalized && sp.position < seal.position ==>
             && o.space.position == seal.position
             && o.space.seqnumPosition == Total(log, seal.position)
             && Matched(log) && Deliveries(o.calls) == Replay(log, Heard(sp), sp.position, seal.position))
  }

  // The tail is made of metalogs of the log, the last of them right before the final position.
  ghost predicate TailFits(seal: S.Seal, log: seq<MetaLog>) {
    && seal.Sealed? && seal.position <= |log|
    && Cuts(Numbers(seal.tail), log) && Pick(log, Numbers(seal.tail)) == seal.tail
    && (forall k :: k in Numbers(seal.tail) ==> k < seal.position)
    && (seal.position > 0 ==> seal.position - 1 in Numbers(seal.tail))
  }

  lemma {:induction false} NodeEnds(sp: Space, log: seq<MetaLog>, seal: S.Seal, interested: set<nat>, n: nat)
    requires FollowsLite(sp, log, interested, n) && TailFits(seal, log)
    requires Within(sp, seal.position) || seal.position == 0
    ensures Ends(sp, log, seal)
  {
    var ks, F := Numbers(seal.tail), seal.position;
    ProvideAllIsArrive(sp, log, ks);
    if sp.position < F {
      FinalizeIff(sp, log, ks, F);
      ArriveFollows(sp, log, ks);
    }
  }

  lemma {:induction false} TailNumbers(seal: S.Seal, log: seq<MetaLog>)
    requires seal.Sealed? && EndsAt(seal.tail, seal.position)
    requires forall j :: 0 <= j < |seal.tail| ==> seal.tail[j].seqnum < |log| && seal.tail[j] == log[seal.tail[j].seqnum]
    ensures TailFits(seal, log)
  {
    TailBelow(seal.tail, seal.position);
    var ks := Numbers(seal.tail);
    if seal.position > 0 {
      assert ks[|ks| - 1] == seal.position - 1;
    }
  }

  ghost predicate NodeEndsWell(sp: Space, log: seq<MetaLog>, seal: S.Seal)
    requires seal.Sealed? && seal.position <= |log|
  {
    ValidSpace(sp) && Ends(sp, log, seal)
  }

  ghost predicate AllEndWell(q: S.State, producers: seq<Producer>, storages: map<nat, Storage>) {
    && q.seal.Sealed? && q.seal.position <= |q.log|
    && (forall e :: 0 <= e < |producers| ==> NodeEndsWell(producers[e].space, q.log, q.seal))
    && (forall id :: id in storages ==> NodeEndsWell(storages[id].space, q.log, q.seal))
  }

  lemma {:induction false} AllEnd(v: Layout, q: S.State, producers: seq<Producer>, storages: map<nat, Storage>)
    requires NodesFollow(v, q.log, producers, storages) && storages.Keys == v.sourcesOf.Keys
    requires TailFits(q.seal, q.log) && (AllWithin(producers, storages, q.seal.position) || q.seal.position == 0)
    ensures AllEndWell(q, producers, storages)
  {
    forall e | 0 <= e < |producers|
      ensures NodeEndsWell(producers[e].space, q.log, q.seal)
    {
      NodeEnds(producers[e].space, q.log, q.seal, {e}, |v.storagesOf|);
    }
    forall id | id in storages
      ensures NodeEndsWell(storages[id].space, q.log, q.seal)
    {
      NodeEnds(storages[id].space, q.log, q.seal, S.Members(v.sourcesOf[id]), |v.storagesOf|);
    }
  }

  lemma {:induction false} SealedTailFits(c: S.Config, q: S.State)
    requires S.ValidConfig(c) && S.Inv(c, q) && q.seal.Sealed?
    ensures TailFits(q.seal, q.log)
  {
    S.SealWithinLog(c, q);
    InvPublishable(c, q);
    TailNumbers(q.seal, q.log);
  }

  /** In every run, after the seal: finalizing an engine or a storage never ends past the final
      position.  It succeeds exactly when the node has, or finds in the tail, every metalog below the
      final position that concerns it, and is not more than one past it; then the node has been handed
      exactly its entries of the sealed log.  No node is past the final position at all, so that the
      other abort cannot happen either, when the tails that sequencers report suffice. */
  lemma {:induction false} NodesEnd(c: S.Config, v: Layout, run: seq<State>)
    requires ValidSystem(c, v) && IsRun(c, v, run) && run[|run| - 1].sequencer.seal.Sealed?
    ensures var s := run[|run| - 1];
            && AllEndWell(s.sequencer, s.producers, s.storages)
            && (S.TailsSuffice(c, s.sequencer) ==> AllWithin(s.producers, s.storages, s.sequencer.seal.position))
  {
    RunInv(c, v, run);
    RunWithin(c, v, run);
    var s := run[|run| - 1];
    SealedTailFits(c, s.sequencer);
    SealedLimit(c, s.sequencer);
    AllEnd(v, s.sequencer, s.producers, s.storages);
  }

  // The tail holds the last `length` metalogs below the position.
  ghost predicate TailCovers(seal: S.Seal, length: nat) {
    seal.Sealed? && forall k: nat :: k < seal.position <= k + length ==> Carries(seal.tail, k)
  }

  lemma {:induction false} SealCovers(c: S.Config, q: S.State)
    requires S.ValidConfig(c) && S.Inv(c, q) && q.seal.Sealed?
    ensures TailCovers(q.seal, c.tailLength)
  {
    forall k: nat | k < q.seal.position <= k + c.tailLength
      ensures Carries(q.seal.tail, k)
    {
      S.SealHoldsTail(c, q, k);
    }
  }

  // A node that lags by no more than that finds the rest in the sealed tail.
  lemma {:induction false} LaggardHasAll(sp: Space, log: seq<MetaLog>, seal: S.Seal, length: nat)
    requires TailCovers(seal, length) && seal.position <= |log| && seal.position <= sp.position + length
    ensures HasAll(sp, log, seal) && !Lacks(sp, seal.tail, seal.position)
  {
    var ks := Numbers(seal.tail);
    forall k: nat | sp.position <= k < seal.position
      ensures k in ks
    {
      assert Carries(seal.tail, k);
      var j :| 0 <= j < |seal.tail| && seal.tail[j].seqnum == k;
      assert ks[j] == k;
    }
  }

  ghost predicate NotShort(sp: Space, seal: S.Seal) {
    && seal.Sealed? && ValidSpace(sp) && (forall j :: 0 <= j < |seal.tail| ==> WellFormed(seal.tail[j], |sp.progress|))
    && FinalizeResultAt(sp.position, ProvideAll(sp, seal.tail).space.position, seal.position) != Insufficient
  }

  /** In every sealed run, no engine or storage that lags by at most as many metalogs as sequencers report
      falls short of the final position. */
  lemma {:induction false} LaggardsEnd(c: S.Config, v: Layout, run: seq<State>)
    requires ValidSystem(c, v) && IsRun(c, v, run) && run[|run| - 1].sequencer.seal.Sealed?
    ensures var s := run[|run| - 1];
            var q := s.sequencer;
            && (forall e :: 0 <= e < |s.producers| && q.seal.position <= s.producers[e].space.position + c.tailLength ==>
                  NotShort(s.producers[e].space, q.seal))
            && (forall id :: id in s.storages && q.seal.position <= s.storages[id].space.position + c.tailLength ==>
                  NotShort(s.storages[id].space, q.seal))
  {
    NodesEnd(c, v, run);
    RunInv(c, v, run);
    var s := run[|run| - 1];
    SealCovers(c, s.sequencer);
    LaggardsNotShort(s.sequencer, s.producers, s.storages, c.tailLength);
  }

  lemma {:induction false} LaggardsNotShort(q: S.State, producers: seq<Producer>, storages: map<nat, Storage>, length: nat)
    requires AllEndWell(q, producers, storages) && TailCovers(q.seal, length)
    ensures forall e :: 0 <= e < |producers| && q.seal.position <= producers[e].space.position + length ==>
              NotShort(producers[e].space, q.seal)
    ensures forall id :: id in storages && q.seal.position <= storages[id].space.position + length ==>
              NotShort(storages[id].space, q.seal)
  {
    forall e | 0 <= e < |producers| && q.seal.position <= producers[e].space.position + length
      ensures NotShort(producers[e].space, q.seal)
    {
      LaggardHasAll(producers[e].space, q.log, q.seal, length);
    }
    forall id | id in storages && q.seal.position <= storages[id].space.position + length
      ensures NotShort(storages[id].space, q.seal)
    {
      LaggardHasAll(storages[id].space, q.log, q.seal, length);
    }
  }

  lemma {:induction false} SealedLimit(c: S.Config, q: S.State)
    requires S.ValidConfig(c) && S.Inv(c, q) && q.seal.Sealed?
    ensures if S.TailsSuffice(c, q) then Limit(q) == q.seal.position else q.seal.position == 0
  {
    S.SealSafety(c, q);
  }

  // ------------------------------------------------------------------------
  // Sequencers

  // A metalog below F that is neither applied, nor received, nor in the tail.
  ghost predicate Lacks(sp: Space, tail: seq<MetaLog>, F: nat) {
    exists k: nat :: sp.position <= k < F && k !in sp.pending && k !in Numbers(tail)
  }

  // How finalizing a backup ends: short of the final position F, past it, or at it.
  ghost predicate BackupEnds(sp: Space, F: nat, tail: seq<MetaLog>) {
    && ValidSpace(sp) && (forall j :: 0 <= j < |tail| ==> WellFormed(tail[j], |sp.progress|))
    && var r := FinalizeResultAt(sp.position, ProvideAll(sp, tail).space.position, F);
       && (r == Insufficient <==> sp.position < F && Lacks(sp, tail, F))
       && (r == Overshot <==> sp.position < F && !Lacks(sp, tail, F) && F in sp.pending)
       && (r == SeenFuture <==> sp.position > F + 1)
       && (r == Finalized <==> F <= sp.position <= F + 1 || (sp.position < F && !Lacks(sp, tail, F) && F !in sp.pending))
  }

  lemma {:induction false} BackupEnd(sp: Space, log: seq<MetaLog>, seal: S.Seal, n: nat)
    requires S.FollowsFully(sp, log, n) && TailFits(seal, log) && (|log| <= seal.position + 1 || seal.position == 0)
    ensures BackupEnds(sp, seal.position, seal.tail)
  {
    var ks, F := Numbers(seal.tail), seal.position;
    ProvideAllIsArrive(sp, log, ks);
    if sp.position < F {
      FinalizeIff(sp, log, ks, F);
      AllRelevant(sp, log, ks, F, n);
    }
  }

  // In full mode every cut matters, and only one can lie past F.
  lemma {:induction false} AllRelevant(sp: Space, log: seq<MetaLog>, ks: seq<nat>, F: nat, n: nat)
    requires S.FollowsFully(sp, log, n) && F <= |log| <= F + 1
    ensures Misses(sp, log, ks, F) <==> exists k: nat :: sp.position <= k < F && k !in sp.pending && k !in ks
    ensures Ahead(sp, log, F) <==> F in sp.pending
  {
    forall k: nat | k < |log|
      ensures Relevant(log[k], Heard(sp))
    {
      EveryCutRelevant(log, n, k);
    }
  }

  /** In every sealed run: a backup falls short exactly when it lacks a metalog below the final position,
      overshoots, the abort called uncommon, exactly when it lacks none and had already received the cut
      right past the final position, and meets the "See the future" abort exactly when it is more than
      one past it.  The primary finalizes unless it is more than one past it.  Sealing is safe, so that
      none is, if and only if the tails that sequencers report suffice. */
  lemma {:induction false} SequencersEnd(c: S.Config, run: seq<S.State>)
    requires S.ValidConfig(c) && S.IsRun(c, run) && run[|run| - 1].seal.Sealed?
    ensures var s := run[|run| - 1];
            && (forall reached: nat :: FinalizeResultAt(|s.log|, reached, s.seal.position)
                                    == if |s.log| > s.seal.position + 1 then SeenFuture else Finalized)
            && (forall b :: b in c.backups ==> b in s.backups && BackupEnds(s.backups[b], s.seal.position, s.seal.tail))
            && (S.TailsSuffice(c, s) <==> S.SealedSafely(c, s))
  {
    S.RunInv(c, run);
    var s := run[|run| - 1];
    S.SealSafety(c, s);
    SealedTailFits(c, s);
    BackupsEnd(c, s.log, s.backups, s.seal);
  }

  lemma {:induction false} BackupsEnd(c: S.Config, log: seq<MetaLog>, backups: map<nat, Space>, seal: S.Seal)
    requires S.Following(c, log, backups) && TailFits(seal, log) && (|log| <= seal.position + 1 || seal.position == 0)
    ensures forall b :: b in c.backups ==> b in backups && BackupEnds(backups[b], seal.position, seal.tail)
  {
    forall b | b in c.backups
      ensures b in backups && BackupEnds(backups[b], seal.position, seal.tail)
    {
      BackupEnd(backups[b], log, seal, c.shards);
    }
  }

  /** Nor does a backup that lags by at most that many. */
  lemma {:induction false} LaggingBackups(c: S.Config, run: seq<S.State>, b: nat)
    requires S.ValidConfig(c) && S.IsRun(c, run) && run[|run| - 1].seal.Sealed? && b in c.backups
    ensures var s := run[|run| - 1];
            && b in s.backups
            && (s.seal.position <= s.backups[b].position + c.tailLength ==> !Lacks(s.backups[b], s.seal.tail, s.seal.position))
  {
    S.RunInv(c, run);
    var s := run[|run| - 1];
    SealCovers(c, s);
    S.SealWithinLog(c, s);
    if s.seal.position <= s.backups[b].position + c.tailLength {
      LaggardHasAll(s.backups[b], s.log, s.seal, c.tailLength);
    }
  }
}
