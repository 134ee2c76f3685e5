/**
 When LogSpaceBase::Finalize succeeds.

 The controller publishes the final position F of a metalog and the tail it
 collected.  A node below F provides itself the tail and must end exactly at F.
 */
module Finalizing {
  import opened MetaLogs
  import opened LogSpaces
  import opened LiteMode

  function Pick(cuts: seq<MetaLog>, ks: seq<nat>): seq<MetaLog>
    requires forall j :: 0 <= j < |ks| ==> ks[j] < |cuts|
  {
    seq(|ks|, j requires 0 <= j < |ks| => cuts[ks[j]])
  }

  lemma {:induction false} ProvideAllIsArrive(sp: Space, cuts: seq<MetaLog>, ks: seq<nat>)
    requires ValidSpace(sp) && Chain(cuts, |sp.progress|) && Cuts(ks, cuts)
    ensures forall j :: 0 <= j < |ks| ==> WellFormed(Pick(cuts, ks)[j], |sp.progress|)
    ensures ProvideAll(sp, Pick(cuts, ks)) == Arrive(sp, cuts, ks)
  {
    ChainMatched(cuts, |sp.progress|);
    if ks != [] {
      ProvideAllIsArrive(sp, cuts, ks[..|ks| - 1]);
      assert Pick(cuts, ks)[..|ks| - 1] == Pick(cuts, ks[..|ks| - 1]);
    }
  }

  // A relevant metalog below F that is neither applied, nor received, nor in the tail.
  ghost predicate Misses(sp: Space, cuts: seq<MetaLog>, ks: seq<nat>, F: nat)
    requires F <= |cuts|
  {
    exists k :: sp.position <= k < F && Relevant(cuts[k], Heard(sp)) && k !in sp.pending && k !in ks
  }

  // A received metalog past F with nothing relevant missing before it.
  ghost predicate Ahead(sp: Space, cuts: seq<MetaLog>, F: nat)
    requires forall k :: k in sp.pending ==> k < |cuts|
  {
    exists k :: k in sp.pending && F <= k && forall j :: F <= j < k && Relevant(cuts[j], Heard(sp)) ==> j in sp.pending
  }

  lemma {:induction false} ReachesFinal(sp: Space, o: Outcome, cuts: seq<MetaLog>, ks: seq<nat>, F: nat)
    requires Follows(sp, cuts) && Arrived(sp, o, cuts, ks)
    requires sp.position < F <= |cuts| && F - 1 in ks && forall k :: k in ks ==> k < F
    ensures o.space.position < F <==> Misses(sp, cuts, ks, F)
    ensures o.space.position > F <==> !Misses(sp, cuts, ks, F) && Ahead(sp, cuts, F)
  {
    var sp' := o.space;
    if !Misses(sp, cuts, ks, F) {
      NothingLeft(sp', cuts, F);
      assert F - 1 < sp'.position;
      if sp'.position > F {
        assert sp'.position - 1 in sp.pending;
      }
    }
  }

  /** A node below the final position F ends exactly at F if and only if the tail and what it
      already received contain every relevant metalog it has not applied, and it holds no metalog
      past F that would now be applied too.  The two failures are the source's
      "Metalog entries not sufficient" and "It's uncommon" cases. */
  lemma {:induction false} FinalizeIff(sp: Space, cuts: seq<MetaLog>, ks: seq<nat>, F: nat)
    requires Follows(sp, cuts) && Settled(sp, cuts) && Cuts(ks, cuts)
    requires sp.position < F <= |cuts| && F - 1 in ks && forall k :: k in ks ==> k < F
    ensures forall j :: 0 <= j < |ks| ==> WellFormed(Pick(cuts, ks)[j], |sp.progress|)
    ensures var r := FinalizeResultAt(sp.position, ProvideAll(sp, Pick(cuts, ks)).space.position, F);
            && (r == Insufficient <==> Misses(sp, cuts, ks, F))
            && (r == Overshot <==> !Misses(sp, cuts, ks, F) && Ahead(sp, cuts, F))
            && (r == Finalized <==> !Misses(sp, cuts, ks, F) && !Ahead(sp, cuts, F))
  {
    ArriveFollows(sp, cuts, ks);
    ProvideAllIsArrive(sp, cuts, ks);
    ReachesFinal(sp, Arrive(sp, cuts, ks), cuts, ks, F);
  }
}
