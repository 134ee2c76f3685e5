/** To whom the primary sends a replicated metalog. */
module Propagation {
  import opened MetaLogs
  import opened LogSpaces
  import opened LiteMode
  import opened Layouts
  import S = Sequencing

  // What the loop has put into the two sets after the first i engines.
  ghost predicate Targets(v: Layout, indexHolders: set<nat>, m: MetaLog, i: nat, engines: set<nat>, storages: set<nat>)
    requires i <= |v.storagesOf|
  {
    && (forall e: nat :: e in engines <==> e < i && (Delta(m, e) > 0 || e in indexHolders))
    && (forall id :: id in storages <==> Needs(v, m, i, id))
  }

  ghost predicate Needs(v: Layout, m: MetaLog, i: nat, id: nat)
    requires i <= |v.storagesOf|
  {
    exists e :: 0 <= e < i && Delta(m, e) > 0 && id in v.storagesOf[e]
  }

  /** A storage is sent a metalog exactly when it holds entries of one of the storage's engines, an
      engine exactly when it holds entries of its own or the engine keeps the index. */
  method PropagateMetaLog(v: Layout, indexHolders: set<nat>, m: MetaLog) returns (engines: set<nat>, storages: set<nat>)
    requires ValidLayout(v) && WellFormed(m, |v.storagesOf|)
    ensures forall e: nat :: e in engines <==> e < |v.storagesOf| && (Relevant(m, {e}) || e in indexHolders)
    ensures forall id :: id in storages <==> id in v.sourcesOf && Relevant(m, S.Members(v.sourcesOf[id]))
  {
    engines, storages := {}, {};
    for i := 0 to |v.storagesOf|
      invariant Targets(v, indexHolders, m, i, engines, storages)
    {
      ghost var before := storages;
      if m.deltas[i] > 0 {
        engines := engines + {i};
        storages := AddAll(storages, v.storagesOf[i]);
      } else if i in indexHolders {
        engines := engines + {i};
      }
      OneMoreEngine(v, m, i, before, storages);
    }
    forall e: nat
      ensures e in engines <==> e < |v.storagesOf| && (Relevant(m, {e}) || e in indexHolders)
    {
      assert Relevant(m, {e}) <==> Delta(m, e) > 0 by {
        assert e in {e};
      }
    }
    forall id
      ensures id in storages <==> id in v.sourcesOf && Relevant(m, S.Members(v.sourcesOf[id]))
    {
      NeedsIffRelevant(v, m, id);
    }
  }

  lemma {:induction false} OneMoreEngine(v: Layout, m: MetaLog, i: nat, before: set<nat>, after: set<nat>)
    requires i < |v.storagesOf| && forall id :: id in before <==> Needs(v, m, i, id)
    requires forall id :: id in after <==> id in before || (Delta(m, i) > 0 && id in v.storagesOf[i])
    ensures forall id :: id in after <==> Needs(v, m, i + 1, id)
  {
    forall id
      ensures Needs(v, m, i + 1, id) <==> Needs(v, m, i, id) || (Delta(m, i) > 0 && id in v.storagesOf[i])
    {
      if Delta(m, i) > 0 && id in v.storagesOf[i] {
        assert Needs(v, m, i + 1, id);
      }
    }
  }

  method AddAll(into: set<nat>, ids: seq<nat>) returns (r: set<nat>)
    ensures forall id :: id in r <==> id in into || id in ids
  {
    r := into;
    for j := 0 to |ids|
      invariant forall id :: id in r <==> id in into || id in ids[..j]
    {
      r := r + {ids[j]};
    }
    assert ids[..|ids|] == ids;
  }

  lemma {:induction false} NeedsIffRelevant(v: Layout, m: MetaLog, id: nat)
    requires ValidLayout(v) && WellFormed(m, |v.storagesOf|)
    ensures Needs(v, m, |v.storagesOf|, id) <==> id in v.sourcesOf && Relevant(m, S.Members(v.sourcesOf[id]))
  {
    if Needs(v, m, |v.storagesOf|, id) {
      var e :| 0 <= e < |v.storagesOf| && Delta(m, e) > 0 && id in v.storagesOf[e];
      assert e in v.sourcesOf[id];
      assert e in S.Members(v.sourcesOf[id]);
    }
    if id in v.sourcesOf && Relevant(m, S.Members(v.sourcesOf[id])) {
      var e :| e in S.Members(v.sourcesOf[id]) && Delta(m, e) > 0;
      assert e in v.sourcesOf[id];
      assert id in v.storagesOf[e];
    }
  }

  /** What is sent is enough: a storage that receives, in any order and any number of times, the
      metalogs it is sent is handed every entry cut for its engines, with the right sequence numbers. */
  lemma {:induction false} SentIsEnough(v: Layout, cuts: seq<MetaLog>, id: nat, ks: seq<nat>, e: nat)
    requires ValidLayout(v) && Chain(cuts, |v.storagesOf|) && Cuts(ks, cuts) && id in v.sourcesOf && e in v.sourcesOf[id]
    requires forall k :: 0 <= k < |cuts| && Needs(v, cuts[k], |v.storagesOf|, id) ==> k in ks
    ensures forall i :: i in S.Members(v.sourcesOf[id]) ==> i < |v.storagesOf|
    ensures var ds := Only(Deliveries(Arrive(Fresh(Lite, S.Members(v.sourcesOf[id]), |v.storagesOf|), cuts, ks).calls), {e});
            && |ds| == ShardStart(cuts, |cuts|, e)
            && forall l :: 0 <= l < |ds| ==>
                 ds[l].shard == e && ds[l].local == l && ds[l].seqnum == SeqnumOf(cuts, |v.storagesOf|, e, l)
  {
    var n, interested := |v.storagesOf|, S.Members(v.sourcesOf[id]);
    forall i | i in interested
      ensures i < n
    {
      assert i in v.sourcesOf[id];
    }
    forall k | 0 <= k < |cuts| && Relevant(cuts[k], interested)
      ensures k in ks
    {
      assert Continues(cuts, k, n);
      NeedsIffRelevant(v, cuts[k], id);
    }
    LiteDeliversAll(interested, n, cuts, ks, e);
  }
}
