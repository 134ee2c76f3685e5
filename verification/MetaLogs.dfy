/**
 NEW_LOGS metalogs ("cuts") and the total order they impose.

 A log space has one shard per engine.  A cut says, for every shard, from which
 local index it starts and how many entries it takes; the entries of a cut get
 consecutive sequence numbers, shard by shard.  Shards are named by the position
 of their engine in the view.
 */
module MetaLogs {

  datatype MetaLog = MetaLog(seqnum: nat, startSeqnum: nat, starts: seq<nat>, deltas: seq<nat>)

  function Sum(s: seq<nat>): nat {
    if s == [] then 0 else Sum(s[..|s| - 1]) + s[|s| - 1]
  }

  lemma {:induction false} SumPrefixStep(s: seq<nat>, i: nat)
    requires i < |s|
    ensures Sum(s[..i + 1]) == Sum(s[..i]) + s[i]
  {
    assert s[..i + 1][..i] == s[..i];
  }

  lemma {:induction false} SumPrefixMonotone(s: seq<nat>, i: nat, j: nat)
    requires i <= j <= |s|
    ensures Sum(s[..i]) <= Sum(s[..j]) <= Sum(s)
    decreases |s| - j, j - i
  {
    assert s[..|s|] == s;
    if j < |s| {
      SumPrefixStep(s, j);
      SumPrefixMonotone(s, j, j + 1);
    }
    if i < j {
      SumPrefixStep(s, i);
      SumPrefixMonotone(s, i + 1, j);
    }
  }

  // A sum is zero only when every element is.
  lemma {:induction false} SumZero(s: seq<nat>, i: nat)
    requires i < |s|
    ensures s[i] <= Sum(s)
  {
    SumPrefixStep(s, i);
    SumPrefixMonotone(s, i + 1, |s|);
  }

  function EndSeqnum(m: MetaLog): nat {
    m.startSeqnum + Sum(m.deltas)
  }

  // Entries of shard `i` in the first `k` cuts.
  function ShardStart(cuts: seq<MetaLog>, k: nat, i: nat): nat
    requires k <= |cuts|
  {
    if k == 0 then 0 else ShardStart(cuts, k - 1, i) + Delta(cuts[k - 1], i)
  }

  function Delta(m: MetaLog, i: nat): nat {
    if i < |m.deltas| then m.deltas[i] else 0
  }

  // Entries of all shards in the first `k` cuts.
  function Total(cuts: seq<MetaLog>, k: nat): nat
    requires k <= |cuts|
  {
    if k == 0 then 0 else Total(cuts, k - 1) + Sum(cuts[k - 1].deltas)
  }

  ghost predicate WellFormed(m: MetaLog, n: nat) {
    |m.starts| == n && |m.deltas| == n
  }

  // Cut `k` continues exactly where the first `k` cuts ended, on every shard and
  // on the sequence numbers, and takes at least one entry.
  ghost predicate Continues(cuts: seq<MetaLog>, k: nat, n: nat)
    requires k < |cuts|
  {
    var m := cuts[k];
    && WellFormed(m, n)
    && m.seqnum == k
    && m.startSeqnum == Total(cuts, k)
    && Sum(m.deltas) > 0
    && forall i :: 0 <= i < n ==> m.starts[i] == ShardStart(cuts, k, i)
  }

  ghost predicate Chain(cuts: seq<MetaLog>, n: nat) {
    forall k :: 0 <= k < |cuts| ==> Continues(cuts, k, n)
  }

  lemma {:induction false} PrefixSums(cuts: seq<MetaLog>, more: seq<MetaLog>, k: nat)
    requires k <= |cuts|
    ensures Total(cuts + more, k) == Total(cuts, k)
    ensures forall i: nat :: ShardStart(cuts + more, k, i) == ShardStart(cuts, k, i)
  {
    if k > 0 {
      PrefixSums(cuts, more, k - 1);
    }
  }

  // Cutting a chain short leaves a chain, and adding a continuing cut keeps one.
  lemma {:induction false} ChainPrefix(cuts: seq<MetaLog>, k: nat, n: nat)
    requires Chain(cuts, n) && k <= |cuts|
    ensures Chain(cuts[..k], n)
  {
    assert cuts[..k] + cuts[k..] == cuts;
    forall j | 0 <= j < k
      ensures Continues(cuts[..k], j, n)
    {
      assert Continues(cuts, j, n);
      PrefixSums(cuts[..k], cuts[k..], j);
    }
  }

  lemma {:induction false} ChainExtend(cuts: seq<MetaLog>, m: MetaLog, n: nat)
    requires Chain(cuts, n) && WellFormed(m, n)
    requires m.seqnum == |cuts| && m.startSeqnum == Total(cuts, |cuts|) && Sum(m.deltas) > 0
    requires forall i :: 0 <= i < n ==> m.starts[i] == ShardStart(cuts, |cuts|, i)
    ensures Chain(cuts + [m], n)
    ensures Total(cuts + [m], |cuts| + 1) == EndSeqnum(m)
    ensures forall i :: 0 <= i < n ==> ShardStart(cuts + [m], |cuts| + 1, i) == m.starts[i] + m.deltas[i]
  {
    PrefixSums(cuts, [m], |cuts|);
    forall j | 0 <= j < |cuts + [m]|
      ensures Continues(cuts + [m], j, n)
    {
      PrefixSums(cuts, [m], j);
      if j < |cuts| {
        assert Continues(cuts, j, n);
      }
    }
  }

  lemma {:induction false} SumsMonotone(cuts: seq<MetaLog>, j: nat, k: nat)
    requires j <= k <= |cuts|
    ensures Total(cuts, j) <= Total(cuts, k)
    ensures forall i: nat :: ShardStart(cuts, j, i) <= ShardStart(cuts, k, i)
    decreases k - j
  {
    if j < k {
      SumsMonotone(cuts, j, k - 1);
    }
  }

  // ------------------------------------------------------------------------
  // The total order

  ghost predicate Covers(m: MetaLog, i: nat, l: nat) {
    i < |m.starts| == |m.deltas| && m.starts[i] <= l < m.starts[i] + m.deltas[i]
  }

  // The sequence number a cut gives to entry `l` of shard `i`.
  function SeqnumIn(m: MetaLog, i: nat, l: nat): (s: nat)
    requires i < |m.starts| == |m.deltas| && m.starts[i] <= l
  {
    m.startSeqnum + Sum(m.deltas[..i]) + (l - m.starts[i])
  }

  // The sequence number a run of cuts gives to entry `l` of shard `i`.
  ghost function SeqnumOf(cuts: seq<MetaLog>, n: nat, i: nat, l: nat): (s: nat)
    requires Chain(cuts, n) && i < n && l < ShardStart(cuts, |cuts|, i)
    ensures s < Total(cuts, |cuts|)
    ensures exists k :: 0 <= k < |cuts| && Covers(cuts[k], i, l) && s == SeqnumIn(cuts[k], i, l)
  {
    var k := CoveringCut(cuts, n, |cuts|, i, l);
    SeqnumInRange(cuts, n, k, i, l);
    SeqnumIn(cuts[k], i, l)
  }

  // The cut that takes entry `l` of shard `i`.
  ghost function CoveringCut(cuts: seq<MetaLog>, n: nat, k: nat, i: nat, l: nat): (j: nat)
    requires Chain(cuts, n) && k <= |cuts| && i < n && l < ShardStart(cuts, k, i)
    ensures j < k && Covers(cuts[j], i, l)
    decreases k
  {
    assert Continues(cuts, k - 1, n);
    if ShardStart(cuts, k - 1, i) <= l then k - 1 else CoveringCut(cuts, n, k - 1, i, l)
  }

  lemma {:induction false} SeqnumInRange(cuts: seq<MetaLog>, n: nat, k: nat, i: nat, l: nat)
    requires Chain(cuts, n) && k < |cuts| && Covers(cuts[k], i, l)
    ensures Total(cuts, k) <= SeqnumIn(cuts[k], i, l) < Total(cuts, k + 1) <= Total(cuts, |cuts|)
    ensures ShardStart(cuts, k, i) <= l < ShardStart(cuts, k + 1, i) <= ShardStart(cuts, |cuts|, i)
  {
    assert Continues(cuts, k, n);
    var d := cuts[k].deltas;
    SumPrefixStep(d, i);
    SumPrefixMonotone(d, i + 1, |d|);
    SumsMonotone(cuts, k + 1, |cuts|);
  }

  // Within one shard a later entry gets a larger sequence number.
  lemma {:induction false} OrderWithinShard(cuts: seq<MetaLog>, n: nat, k: nat, k': nat, i: nat, l: nat, l': nat)
    requires Chain(cuts, n) && k < |cuts| && k' < |cuts|
    requires Covers(cuts[k], i, l) && Covers(cuts[k'], i, l') && l < l'
    ensures k <= k' && SeqnumIn(cuts[k], i, l) < SeqnumIn(cuts[k'], i, l')
  {
    SeqnumInRange(cuts, n, k, i, l);
    SeqnumInRange(cuts, n, k', i, l');
    if k' < k {
      SumsMonotone(cuts, k' + 1, k);
    } else if k < k' {
      SumsMonotone(cuts, k + 1, k');
    }
  }

  // Two entries with one sequence number are one entry, in one cut.
  lemma {:induction false} SeqnumInjective(cuts: seq<MetaLog>, n: nat, k: nat, k': nat,
                                           i: nat, l: nat, i': nat, l': nat)
    requires Chain(cuts, n) && k < |cuts| && k' < |cuts|
    requires Covers(cuts[k], i, l) && Covers(cuts[k'], i', l')
    requires SeqnumIn(cuts[k], i, l) == SeqnumIn(cuts[k'], i', l')
    ensures k == k' && i == i' && l == l'
  {
    SeqnumInRange(cuts, n, k, i, l);
    SeqnumInRange(cuts, n, k', i', l');
    if k < k' {
      SumsMonotone(cuts, k + 1, k');
    } else if k' < k {
      SumsMonotone(cuts, k' + 1, k);
    }
    SeqnumInjectiveInCut(cuts[k], i, l, i', l');
  }

  lemma {:induction false} SeqnumInjectiveInCut(m: MetaLog, i: nat, l: nat, i': nat, l': nat)
    requires Covers(m, i, l) && Covers(m, i', l')
    requires SeqnumIn(m, i, l) == SeqnumIn(m, i', l')
    ensures i == i' && l == l'
  {
    var d := m.deltas;
    SumPrefixStep(d, i);
    SumPrefixStep(d, i');
    if i < i' {
      SumPrefixMonotone(d, i + 1, i');
    } else if i' < i {
      SumPrefixMonotone(d, i' + 1, i);
    }
  }

  // One entry is in one cut only.
  lemma {:induction false} CoveredOnce(cuts: seq<MetaLog>, n: nat, k: nat, k': nat, i: nat, l: nat)
    requires Chain(cuts, n) && k < |cuts| && k' < |cuts|
    requires Covers(cuts[k], i, l) && Covers(cuts[k'], i, l)
    ensures k == k'
  {
    SeqnumInRange(cuts, n, k, i, l);
    SeqnumInRange(cuts, n, k', i, l);
    if k < k' {
      SumsMonotone(cuts, k + 1, k');
    } else if k' < k {
      SumsMonotone(cuts, k' + 1, k);
    }
  }

  // Every sequence number below the end belongs to some entry.
  lemma {:induction false} Locate(cuts: seq<MetaLog>, n: nat, j: nat, s: nat) returns (k: nat, i: nat, l: nat)
    requires Chain(cuts, n) && j <= |cuts| && s < Total(cuts, j)
    ensures k < j && i < n && Covers(cuts[k], i, l) && SeqnumIn(cuts[k], i, l) == s
    decreases j
  {
    assert Continues(cuts, j - 1, n);
    if s < Total(cuts, j - 1) {
      k, i, l := Locate(cuts, n, j - 1, s);
    } else {
      var m := cuts[j - 1];
      assert m.deltas[..|m.deltas|] == m.deltas;
      i := LocateShard(m.deltas, |m.deltas|, s - m.startSeqnum);
      SumPrefixStep(m.deltas, i);
      k, l := j - 1, m.starts[i] + (s - m.startSeqnum - Sum(m.deltas[..i]));
    }
  }

  lemma {:induction false} LocateShard(d: seq<nat>, j: nat, x: nat) returns (i: nat)
    requires j <= |d| && x < Sum(d[..j])
    ensures i < j && Sum(d[..i]) <= x < Sum(d[..i]) + d[i]
    decreases j
  {
    SumPrefixStep(d, j - 1);
    if x < Sum(d[..j - 1]) {
      i := LocateShard(d, j - 1, x);
    } else {
      i := j - 1;
    }
  }

  // Entry `l` of shard `i` has been cut.
  ghost predicate IsCut(cuts: seq<MetaLog>, n: nat, i: nat, l: nat) {
    i < n && l < ShardStart(cuts, |cuts|, i)
  }

  ghost predicate IsAssigned(cuts: seq<MetaLog>, n: nat, s: nat)
    requires Chain(cuts, n)
  {
    exists i: nat, l: nat :: IsCut(cuts, n, i, l) && SeqnumOf(cuts, n, i, l) == s
  }

  /** The map (shard, local index) -> seqnum of a run of cuts is a bijection onto
      [0, total), and increasing on every shard. */
  lemma {:induction false} TotalOrder(cuts: seq<MetaLog>, n: nat)
    requires Chain(cuts, n)
    ensures forall s: nat :: IsAssigned(cuts, n, s) <==> s < Total(cuts, |cuts|)
    ensures forall i, l, i', l' ::
              IsCut(cuts, n, i, l) && IsCut(cuts, n, i', l') && SeqnumOf(cuts, n, i, l) == SeqnumOf(cuts, n, i', l')
              ==> i == i' && l == l'
    ensures forall i, l, l' ::
              IsCut(cuts, n, i, l) && IsCut(cuts, n, i, l') && l < l'
              ==> SeqnumOf(cuts, n, i, l) < SeqnumOf(cuts, n, i, l')
  {
    forall s: nat | s < Total(cuts, |cuts|)
      ensures IsAssigned(cuts, n, s)
    {
      var k, i, l := Locate(cuts, n, |cuts|, s);
      SeqnumOfIs(cuts, n, k, i, l);
      assert IsCut(cuts, n, i, l);
    }
    forall i, l, i', l' | IsCut(cuts, n, i, l) && IsCut(cuts, n, i', l') && SeqnumOf(cuts, n, i, l) == SeqnumOf(cuts, n, i', l')
      ensures i == i' && l == l'
    {
      var k, k' := CoveringCut(cuts, n, |cuts|, i, l), CoveringCut(cuts, n, |cuts|, i', l');
      SeqnumInjective(cuts, n, k, k', i, l, i', l');
    }
    forall i, l, l' | IsCut(cuts, n, i, l) && IsCut(cuts, n, i, l') && l < l'
      ensures SeqnumOf(cuts, n, i, l) < SeqnumOf(cuts, n, i, l')
    {
      var k, k' := CoveringCut(cuts, n, |cuts|, i, l), CoveringCut(cuts, n, |cuts|, i, l');
      OrderWithinShard(cuts, n, k, k', i, l, l');
    }
  }

  // A cut that covers an entry decides its sequence number for the whole run.
  lemma {:induction false} SeqnumOfIs(cuts: seq<MetaLog>, n: nat, k: nat, i: nat, l: nat)
    requires Chain(cuts, n) && k < |cuts| && i < n && Covers(cuts[k], i, l)
    ensures l < ShardStart(cuts, |cuts|, i) && SeqnumOf(cuts, n, i, l) == SeqnumIn(cuts[k], i, l)
  {
    SeqnumInRange(cuts, n, k, i, l);
    var k' := CoveringCut(cuts, n, |cuts|, i, l);
    CoveredOnce(cuts, n, k, k', i, l);
  }

  // Later cuts never change a sequence number already given.
  lemma {:induction false} SeqnumStable(cuts: seq<MetaLog>, more: seq<MetaLog>, n: nat, i: nat, l: nat)
    requires Chain(cuts + more, n) && Chain(cuts, n) && i < n && l < ShardStart(cuts, |cuts|, i)
    ensures l < ShardStart(cuts + more, |cuts + more|, i)
    ensures SeqnumOf(cuts + more, n, i, l) == SeqnumOf(cuts, n, i, l)
  {
    var k := CoveringCut(cuts, n, |cuts|, i, l);
    assert (cuts + more)[k] == cuts[k];
    SeqnumOfIs(cuts + more, n, k, i, l);
  }

  /** While fewer than 2^32 entries have been cut, every counter of a metalog and
      every intermediate sum fits 32 bits, so the source's uint32 arithmetic never wraps. */
  lemma {:induction false} CountersFit(cuts: seq<MetaLog>, n: nat, k: nat, i: nat)
    requires Chain(cuts, n) && k < |cuts| && i < n && Total(cuts, |cuts|) < 0x1_0000_0000
    ensures WellFormed(cuts[k], n)
    ensures cuts[k].startSeqnum + Sum(cuts[k].deltas[..i]) + cuts[k].deltas[i] < 0x1_0000_0000
    ensures cuts[k].starts[i] + cuts[k].deltas[i] < 0x1_0000_0000
    ensures cuts[k].seqnum < 0x1_0000_0000
  {
    assert Continues(cuts, k, n);
    var d := cuts[k].deltas;
    SumPrefixStep(d, i);
    SumPrefixMonotone(d, i + 1, |d|);
    SumsMonotone(cuts, k + 1, |cuts|);
    ShardStartBelowTotal(cuts, k + 1, n, i);
    PositionBelowTotal(cuts, k, n);
  }

  lemma {:induction false} ShardStartBelowTotal(cuts: seq<MetaLog>, k: nat, n: nat, i: nat)
    requires Chain(cuts, n) && k <= |cuts| && i < n
    ensures ShardStart(cuts, k, i) <= Total(cuts, k)
  {
    if k > 0 {
      ShardStartBelowTotal(cuts, k - 1, n, i);
      assert Continues(cuts, k - 1, n);
      SumZero(cuts[k - 1].deltas, i);
    }
  }

  lemma {:induction false} PositionBelowTotal(cuts: seq<MetaLog>, k: nat, n: nat)
    requires Chain(cuts, n) && k <= |cuts|
    ensures k <= Total(cuts, k)
  {
    if k > 0 {
      assert Continues(cuts, k - 1, n);
      PositionBelowTotal(cuts, k - 1, n);
    }
  }

  lemma {:induction false} Associative<T>(a: seq<T>, b: seq<T>, c: seq<T>)
    ensures (a + b) + c == a + (b + c)
  {
  }
}
