/**
 Reads at a storage when its view ends.

 Finalizing a storage provides it the sealed tail and then aborts if a read still
 waits.  No read of an entry of the sealed log does.
 */
module FinalReads {
  import opened MetaLogs
  import opened LogSpaces
  import opened LiteMode
  import opened Layouts
  import opened Finalizing
  import opened StorageDelivery
  import opened ClusterReads
  import N = NodeFinality

  // The window after the tail has been provided.
  ghost function AfterTail(sp: Space, tail: seq<MetaLog>, data: Data, maxLive: nat, n: W.Node): W.Node
    requires ValidSpace(sp) && forall j :: 0 <= j < |tail| ==> WellFormed(tail[j], |sp.progress|)
  {
    if tail == [] then n
    else
      var front := tail[..|tail| - 1];
      WindowAfter(ProvideAll(sp, front).space, tail[|tail| - 1], data, maxLive, AfterTail(sp, front, data, maxLive, n))
  }

  // Providing metalogs leaves a log space that follows the log.
  lemma {:induction false} TailTracks(sp: Space, log: seq<MetaLog>, ks: seq<nat>)
    requires Follows(sp, log) && Settled(sp, log) && Cuts(ks, log)
    ensures forall j :: 0 <= j < |ks| ==> WellFormed(Pick(log, ks)[j], |sp.progress|)
    ensures var sp' := ProvideAll(sp, Pick(log, ks)).space;
            Follows(sp', log) && Settled(sp', log) && SameSpace(sp, sp')
  {
    ProvideAllIsArrive(sp, log, ks);
    ArriveSettles(sp, log, ks);
  }

  // The window is right and as far as the log space.
  ghost predicate InStep(n: W.Node, sp: Space, owned: Entries) {
    W.Inv(owned, n) && n.window.seqnumPosition == sp.seqnumPosition
  }

  lemma {:induction false} AfterTailInv(sp: Space, log: seq<MetaLog>, ks: seq<nat>, data: Data, maxLive: nat, n: W.Node,
                                        owned: Entries)
    requires Follows(sp, log) && Settled(sp, log) && Cuts(ks, log) && InStep(n, sp, owned)
    requires Describes(owned, log, |sp.progress|, Heard(sp), data)
    ensures forall j :: 0 <= j < |ks| ==> WellFormed(Pick(log, ks)[j], |sp.progress|)
    ensures InStep(AfterTail(sp, Pick(log, ks), data, maxLive, n), ProvideAll(sp, Pick(log, ks)).space, owned)
  {
    ProvideAllIsArrive(sp, log, ks);
    if ks != [] {
      var front, k := ks[..|ks| - 1], ks[|ks| - 1];
      AfterTailInv(sp, log, front, data, maxLive, n, owned);
      TailTracks(sp, log, front);
      AfterTailStep(sp, log, ks, data, maxLive, n);
      var mid := ProvideAll(sp, Pick(log, front)).space;
      WindowAfterInv(mid, log, k, data, maxLive, AfterTail(sp, Pick(log, front), data, maxLive, n), owned);
    }
  }

  lemma {:induction false} AfterTailStep(sp: Space, log: seq<MetaLog>, ks: seq<nat>, data: Data, maxLive: nat, n: W.Node)
    requires ValidSpace(sp) && Cuts(ks, log) && ks != []
    requires forall j :: 0 <= j < |ks| ==> WellFormed(Pick(log, ks)[j], |sp.progress|)
    ensures var front, m := ks[..|ks| - 1], log[ks[|ks| - 1]];
            && (forall j :: 0 <= j < |front| ==> WellFormed(Pick(log, front)[j], |sp.progress|))
            && var mid := ProvideAll(sp, Pick(log, front)).space;
               && ValidSpace(mid) && WellFormed(m, |mid.progress|)
               && ProvideAll(sp, Pick(log, ks)).space == Provide(mid, m).space
               && AfterTail(sp, Pick(log, ks), data, maxLive, n)
               == WindowAfter(mid, m, data, maxLive, AfterTail(sp, Pick(log, front), data, maxLive, n))
  {
    assert Pick(log, ks)[..|ks| - 1] == Pick(log, ks[..|ks| - 1]);
    assert Pick(log, ks)[|ks| - 1] == log[ks[|ks| - 1]];
  }

  // The window of a storage that has been finalized.
  ghost function Finalized(sp: Space, F: nat, tail: seq<MetaLog>, data: Data, maxLive: nat, n: W.Node): W.Node
    requires ValidSpace(sp) && forall j :: 0 <= j < |tail| ==> WellFormed(tail[j], |sp.progress|)
  {
    if sp.position < F then AfterTail(sp, tail, data, maxLive, n) else n
  }

  ghost predicate NoneWaits(n: W.Node, s: nat) {
    forall j :: 0 <= j < |n.window.waiting| ==> n.window.waiting[j].seqnum != s
  }

  lemma {:induction false} EndPosition(sp: Space, sp': Space, log: seq<MetaLog>, F: nat)
    requires Follows(sp, log) && Follows(sp', log) && F <= |log|
    requires FinalizeResultAt(sp.position, sp'.position, F) == FinalizeResult.Finalized
    ensures (if sp.position < F then sp' else sp).seqnumPosition >= Total(log, F)
  {
    if sp.position >= F {
      SumsMonotone(log, F, sp.position);
    }
  }

  // Finalizing gets the log space at least to the final position.
  lemma {:induction false} FinalPosition(sp: Space, log: seq<MetaLog>, seal: S.Seal)
    requires Follows(sp, log) && Settled(sp, log) && N.TailFits(seal, log)
    ensures forall j :: 0 <= j < |seal.tail| ==> WellFormed(seal.tail[j], |sp.progress|)
    ensures var sp' := ProvideAll(sp, seal.tail).space;
            FinalizeResultAt(sp.position, sp'.position, seal.position) == FinalizeResult.Finalized ==>
              (if sp.position < seal.position then sp' else sp).seqnumPosition >= Total(log, seal.position)
  {
    TailTracks(sp, log, N.Numbers(seal.tail));
    var sp' := ProvideAll(sp, seal.tail).space;
    if FinalizeResultAt(sp.position, sp'.position, seal.position) == FinalizeResult.Finalized {
      EndPosition(sp, sp', log, seal.position);
    }
  }

  lemma {:induction false} FinalWindow(sp: Space, log: seq<MetaLog>, seal: S.Seal, data: Data, maxLive: nat, n: W.Node,
                                       owned: Entries)
    requires Follows(sp, log) && Settled(sp, log) && N.TailFits(seal, log) && InStep(n, sp, owned)
    requires Describes(owned, log, |sp.progress|, Heard(sp), data)
    requires forall j :: 0 <= j < |seal.tail| ==> WellFormed(seal.tail[j], |sp.progress|)
    ensures InStep(Finalized(sp, seal.position, seal.tail, data, maxLive, n),
                   if sp.position < seal.position then ProvideAll(sp, seal.tail).space else sp, owned)
  {
    AfterTailInv(sp, log, N.Numbers(seal.tail), data, maxLive, n, owned);
  }

  // A read of an owned entry below the position does not wait.
  lemma {:induction false} Served(n: W.Node, sp: Space, owned: Entries, s: nat)
    requires InStep(n, sp, owned) && s in owned && s < sp.seqnumPosition
    ensures NoneWaits(n, s)
  {
  }

  /** In every run, if finalizing a storage of an entry's engine succeeds, no read of the entry waits there
      any more, for every entry of the sealed log.  So the abort on pending reads needs a read past the
      end of the sealed log, or one sent to a storage that does not hold its entry. */
  lemma {:induction false} NoReadLeft(c: S.Config, v: Layout, id: nat, data: Data, maxLive: nat, run: seq<State>,
                                      k: nat, e: nat, l: nat)
    requires D.ValidSystem(c, v) && IsRun(c, v, id, data, maxLive, run) && e < c.shards && id in v.storagesOf[e]
    requires var q := run[|run| - 1].cluster.sequencer;
             q.seal.Sealed? && k < |q.log| && k < q.seal.position && Covers(q.log[k], e, l)
    ensures id in run[|run| - 1].cluster.storages && ValidSpace(run[|run| - 1].cluster.storages[id].space)
    ensures var last := run[|run| - 1];
            var sp, q := last.cluster.storages[id].space, last.cluster.sequencer;
            && (forall j :: 0 <= j < |q.seal.tail| ==> WellFormed(q.seal.tail[j], |sp.progress|))
            && (FinalizeResultAt(sp.position, ProvideAll(sp, q.seal.tail).space.position, q.seal.position)
                == FinalizeResult.Finalized ==>
                  NoneWaits(Finalized(sp, q.seal.position, q.seal.tail, data, maxLive, last.node), SeqnumIn(q.log[k], e, l)))
  {
    var last := run[|run| - 1];
    var q, shards := last.cluster.sequencer, S.Members(v.sourcesOf[id]);
    var owned := StorageAtEnd(c, v, id, data, maxLive, run);
    var sp, s := last.cluster.storages[id].space, SeqnumIn(q.log[k], e, l);
    FinalPosition(sp, q.log, q.seal);
    FinalWindow(sp, q.log, q.seal, data, maxLive, last.node, owned);
    BelowEnd(q.log, c.shards, k, e, l, q.seal.position);
    assert Cell(owned, shards, data, s, e, l);
    var sp' := if sp.position < q.seal.position then ProvideAll(sp, q.seal.tail).space else sp;
    if s < sp'.seqnumPosition {
      Served(Finalized(sp, q.seal.position, q.seal.tail, data, maxLive, last.node), sp', owned, s);
    }
  }

  lemma {:induction false} StorageAtEnd(c: S.Config, v: Layout, id: nat, data: Data, maxLive: nat,
                                        run: seq<State>) returns (owned: Entries)
    requires D.ValidSystem(c, v) && IsRun(c, v, id, data, maxLive, run) && id in v.sourcesOf
    requires run[|run| - 1].cluster.sequencer.seal.Sealed?
    ensures var last := run[|run| - 1];
            var q := last.cluster.sequencer;
            && N.TailFits(q.seal, q.log) && id in last.cluster.storages && Chain(q.log, c.shards)
            && D.FollowsLite(last.cluster.storages[id].space, q.log, S.Members(v.sourcesOf[id]), c.shards)
            && InStep(last.node, last.cluster.storages[id].space, owned)
            && Describes(owned, q.log, c.shards, S.Members(v.sourcesOf[id]), data)
  {
    var last := run[|run| - 1];
    var log := last.cluster.sequencer.log;
    ClusterInv(c, v, id, data, maxLive, run);
    D.StorageFollows(c, v, last.cluster, id);
    N.SealedTailFits(c, last.cluster.sequencer);
    owned := Owned(log, c.shards, S.Members(v.sourcesOf[id]), data);
    OwnedDescribes(log, c.shards, S.Members(v.sourcesOf[id]), data);
    RunFollows(c, v, id, data, maxLive, run, log, owned);
  }

  lemma {:induction false} BelowEnd(log: seq<MetaLog>, n: nat, k: nat, e: nat, l: nat, F: nat)
    requires Chain(log, n) && k < F <= |log| && e < n && Covers(log[k], e, l)
    ensures SeqnumIn(log[k], e, l) < Total(log, F)
  {
    SeqnumInRange(log, n, k, e, l);
    SumsMonotone(log, k + 1, F);
  }
}
