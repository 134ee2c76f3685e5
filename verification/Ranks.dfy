/**
 The replicated position of a metalog: the middle element of the sorted progress
 of the backups, and what it says about how many of them hold a metalog.
 */
module Ranks {

  // Insertion sort stands for the library's sort.
  function Insert(b: seq<nat>, v: nat): seq<nat> {
    if b == [] || b[|b| - 1] <= v then b + [v] else Insert(b[..|b| - 1], v) + [b[|b| - 1]]
  }

  function Sort(a: seq<nat>): (b: seq<nat>)
    ensures |b| == |a|
  {
    if a == [] then [] else
      InsertLength(Sort(a[..|a| - 1]), a[|a| - 1]);
      Insert(Sort(a[..|a| - 1]), a[|a| - 1])
  }

  lemma {:induction false} InsertLength(b: seq<nat>, v: nat)
    ensures |Insert(b, v)| == |b| + 1
  {
    if b != [] && b[|b| - 1] > v {
      InsertLength(b[..|b| - 1], v);
    }
  }

  ghost predicate Sorted(b: seq<nat>) {
    forall i, j :: 0 <= i < j < |b| ==> b[i] <= b[j]
  }

  function CountGE(a: seq<nat>, x: nat): nat {
    if a == [] then 0 else CountGE(a[..|a| - 1], x) + if a[|a| - 1] >= x then 1 else 0
  }

  lemma {:induction false} CountPush(a: seq<nat>, v: nat, x: nat)
    ensures CountGE(a + [v], x) == CountGE(a, x) + if v >= x then 1 else 0
  {
    assert (a + [v])[..|a|] == a;
  }

  lemma {:induction false} InsertCount(b: seq<nat>, v: nat, x: nat)
    ensures CountGE(Insert(b, v), x) == CountGE(b, x) + if v >= x then 1 else 0
  {
    if b == [] || b[|b| - 1] <= v {
      CountPush(b, v, x);
    } else {
      InsertCount(b[..|b| - 1], v, x);
      CountPush(Insert(b[..|b| - 1], v), b[|b| - 1], x);
    }
  }

  lemma {:induction false} InsertBound(b: seq<nat>, v: nat, top: nat)
    requires v <= top && forall i :: 0 <= i < |b| ==> b[i] <= top
    ensures forall i :: 0 <= i < |Insert(b, v)| ==> Insert(b, v)[i] <= top
  {
    if b != [] && b[|b| - 1] > v {
      InsertBound(b[..|b| - 1], v, top);
    }
  }

  lemma {:induction false} InsertSorted(b: seq<nat>, v: nat)
    requires Sorted(b)
    ensures Sorted(Insert(b, v))
  {
    if b != [] && b[|b| - 1] > v {
      InsertSorted(b[..|b| - 1], v);
      InsertBound(b[..|b| - 1], v, b[|b| - 1]);
    }
  }

  lemma {:induction false} SortFacts(a: seq<nat>, x: nat)
    ensures Sorted(Sort(a)) && CountGE(Sort(a), x) == CountGE(a, x)
  {
    if a != [] {
      SortFacts(a[..|a| - 1], x);
      InsertSorted(Sort(a[..|a| - 1]), a[|a| - 1]);
      InsertCount(Sort(a[..|a| - 1]), a[|a| - 1], x);
    }
  }

  lemma {:induction false} SortedRank(b: seq<nat>, k: nat, x: nat)
    requires Sorted(b) && k < |b|
    ensures b[k] >= x <==> CountGE(b, x) >= |b| - k
  {
    var front, last := b[..|b| - 1], b[|b| - 1];
    if last < x {
      CountNone(b, x);
    } else if k < |b| - 1 {
      SortedRank(front, k, x);
    }
  }

  lemma {:induction false} CountNone(b: seq<nat>, x: nat)
    requires forall i :: 0 <= i < |b| ==> b[i] < x
    ensures CountGE(b, x) == 0
  {
    if b != [] {
      CountNone(b[..|b| - 1], x);
    }
  }

  /** The k-th smallest of n numbers is at least x exactly when n - k of them are. */
  lemma {:induction false} RankIff(a: seq<nat>, k: nat, x: nat)
    requires k < |a|
    ensures Sort(a)[k] >= x <==> CountGE(a, x) >= |a| - k
  {
    SortFacts(a, x);
    SortedRank(Sort(a), k, x);
  }

  lemma {:induction false} CountMonotone(a: seq<nat>, b: seq<nat>, x: nat)
    requires |a| == |b| && forall i :: 0 <= i < |a| ==> a[i] <= b[i]
    ensures CountGE(a, x) <= CountGE(b, x)
  {
    if a != [] {
      CountMonotone(a[..|a| - 1], b[..|b| - 1], x);
    }
  }

  // Raising some numbers never lowers the k-th smallest, and it stays within their bound.
  lemma {:induction false} RankMonotone(a: seq<nat>, b: seq<nat>, k: nat)
    requires |a| == |b| && k < |a| && forall i :: 0 <= i < |a| ==> a[i] <= b[i]
    ensures Sort(a)[k] <= Sort(b)[k]
  {
    var x := Sort(a)[k];
    RankIff(a, k, x);
    CountMonotone(a, b, x);
    RankIff(b, k, x);
  }

  lemma {:induction false} RankBound(a: seq<nat>, k: nat, top: nat)
    requires k < |a| && forall i :: 0 <= i < |a| ==> a[i] <= top
    ensures Sort(a)[k] <= top
  {
    RankIff(a, k, top + 1);
    CountNone(a, top + 1);
  }

  // ------------------------------------------------------------------------
  // Progress of the backups

  ghost predicate Distinct(ids: seq<nat>) {
    forall i, j :: 0 <= i < j < |ids| ==> ids[i] != ids[j]
  }

  function Values(backups: seq<nat>, progress: map<nat, nat>): seq<nat>
    requires forall i :: 0 <= i < |backups| ==> backups[i] in progress
  {
    seq(|backups|, i requires 0 <= i < |backups| => progress[backups[i]])
  }

  // Where the backups' progress puts the replicated position.
  function ReplicatedOf(backups: seq<nat>, progress: map<nat, nat>): nat
    requires forall i :: 0 <= i < |backups| ==> backups[i] in progress
  {
    if backups == [] then 0 else Sort(Values(backups, progress))[|backups| / 2]
  }

  // More progress moves the replicated position up, and never past what all have.
  lemma {:induction false} ReplicatedMoves(backups: seq<nat>, p: map<nat, nat>, p': map<nat, nat>, top: nat)
    requires forall i :: 0 <= i < |backups| ==> backups[i] in p && backups[i] in p'
    requires forall i :: 0 <= i < |backups| ==> p[backups[i]] <= p'[backups[i]] <= top
    ensures ReplicatedOf(backups, p) <= ReplicatedOf(backups, p') <= top
  {
    if backups != [] {
      RankMonotone(Values(backups, p), Values(backups, p'), |backups| / 2);
      RankBound(Values(backups, p'), |backups| / 2, top);
    }
  }

  // The backups known to hold everything below x.
  ghost function Holders(backups: seq<nat>, progress: map<nat, nat>, x: nat): set<nat>
    requires forall i :: 0 <= i < |backups| ==> backups[i] in progress
  {
    set b | b in backups && b in progress && progress[b] >= x
  }

  lemma {:induction false} HoldersCount(backups: seq<nat>, progress: map<nat, nat>, x: nat)
    requires Distinct(backups) && forall i :: 0 <= i < |backups| ==> backups[i] in progress
    ensures |Holders(backups, progress, x)| == CountGE(Values(backups, progress), x)
  {
    if backups == [] {
      assert Holders(backups, progress, x) == {};
    } else {
      var front, last := backups[..|backups| - 1], backups[|backups| - 1];
      HoldersCount(front, progress, x);
      assert Values(backups, progress)[..|backups| - 1] == Values(front, progress);
      OneMoreHolder(front, last, progress, x);
      assert backups == front + [last];
    }
  }

  // One more backup holds everything below x or does not.
  lemma {:induction false} OneMoreHolder(front: seq<nat>, last: nat, progress: map<nat, nat>, x: nat)
    requires last !in front && last in progress && forall i :: 0 <= i < |front| ==> front[i] in progress
    ensures forall i :: 0 <= i < |front + [last]| ==> (front + [last])[i] in progress
    ensures |Holders(front + [last], progress, x)|
         == |Holders(front, progress, x)| + if progress[last] >= x then 1 else 0
  {
    HoldersUnion(front, last, progress, x);
  }

  lemma {:induction false} HoldersUnion(front: seq<nat>, last: nat, progress: map<nat, nat>, x: nat)
    requires last in progress && forall i :: 0 <= i < |front| ==> front[i] in progress
    ensures forall i :: 0 <= i < |front + [last]| ==> (front + [last])[i] in progress
    ensures Holders(front + [last], progress, x)
         == Holders(front, progress, x) + if progress[last] >= x then {last} else {}
  {
  }

  /** With R - 1 backups, everything below the replicated position is held by at least
      floor(R / 2) of them: together with the primary, a majority of the R copies. */
  lemma {:induction false} ReplicatedIsHeld(backups: seq<nat>, progress: map<nat, nat>)
    requires Distinct(backups) && backups != [] && forall i :: 0 <= i < |backups| ==> backups[i] in progress
    ensures |Holders(backups, progress, ReplicatedOf(backups, progress))| >= (|backups| + 1) / 2
  {
    var x := ReplicatedOf(backups, progress);
    HoldersCount(backups, progress, x);
    RankIff(Values(backups, progress), |backups| / 2, x);
  }
}
