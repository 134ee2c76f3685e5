/**
 What a storage's lite log space hands to its live window: in every message, and
 in any arrival order, exactly the entries of its shards between the old and the
 new sequence number position.
 */
module StorageDelivery {
  import opened MetaLogs
  import opened LogSpaces
  import opened LiteMode
  import opened Pending
  import W = StorageWindow

  type Data = LocalId -> W.LogEntry
  type Entries = map<nat, W.LogEntry>

  ghost predicate IsPlace(cuts: seq<MetaLog>, n: nat, s: nat, id: LocalId)
    requires Chain(cuts, n)
  {
    IsCut(cuts, n, id.0, id.1) && SeqnumOf(cuts, n, id.0, id.1) == s
  }

  // The entry that got a sequence number.
  ghost function Place(cuts: seq<MetaLog>, n: nat, s: nat): (id: LocalId)
    requires Chain(cuts, n) && s < Total(cuts, |cuts|)
    ensures IsPlace(cuts, n, s, id)
  {
    TotalOrder(cuts, n);
    assert IsAssigned(cuts, n, s);
    var i: nat, l: nat :| IsCut(cuts, n, i, l) && SeqnumOf(cuts, n, i, l) == s;
    assert IsPlace(cuts, n, s, (i, l));
    var id :| IsPlace(cuts, n, s, id);
    id
  }

  lemma {:induction false} PlaceIs(cuts: seq<MetaLog>, n: nat, k: nat, i: nat, l: nat)
    requires Chain(cuts, n) && k < |cuts| && i < n && Covers(cuts[k], i, l)
    ensures SeqnumIn(cuts[k], i, l) < Total(cuts, |cuts|) && Place(cuts, n, SeqnumIn(cuts[k], i, l)) == (i, l)
  {
    var s := SeqnumIn(cuts[k], i, l);
    SeqnumOfIs(cuts, n, k, i, l);
    assert s < Total(cuts, |cuts|);
    var id := Place(cuts, n, s);
    TotalOrder(cuts, n);
    assert IsCut(cuts, n, i, l) && IsCut(cuts, n, id.0, id.1);
    assert id == (i, l);
  }

  // The entries of some shards, by sequence number.
  ghost function Owned(cuts: seq<MetaLog>, n: nat, shards: set<nat>, data: Data): Entries
    requires Chain(cuts, n)
  {
    map s | s in Shards(Total(cuts, |cuts|)) && Place(cuts, n, s).0 in shards :: data(Place(cuts, n, s))
  }

  // Whether a sequence number is in the map, and what is there, for the entry that got it.
  ghost predicate Cell(owned: Entries, shards: set<nat>, data: Data, s: nat, i: nat, l: nat) {
    && (s in owned <==> i in shards)
    && (i in shards ==> W.Owns(owned, s, data((i, l))))
  }

  lemma {:induction false} OwnedIff(cuts: seq<MetaLog>, n: nat, shards: set<nat>, data: Data, k: nat, i: nat, l: nat)
    requires Chain(cuts, n) && k < |cuts| && i < n && Covers(cuts[k], i, l)
    ensures Cell(Owned(cuts, n, shards, data), shards, data, SeqnumIn(cuts[k], i, l), i, l)
  {
    PlaceIs(cuts, n, k, i, l);
  }

  // The map holds the entries of some shards, by sequence number.
  ghost predicate Describes(owned: Entries, cuts: seq<MetaLog>, n: nat, shards: set<nat>, data: Data) {
    forall k: nat, i: nat, l: nat :: k < |cuts| && i < n && Covers(cuts[k], i, l) ==>
      Cell(owned, shards, data, SeqnumIn(cuts[k], i, l), i, l)
  }

  lemma {:induction false} OwnedDescribes(cuts: seq<MetaLog>, n: nat, shards: set<nat>, data: Data)
    requires Chain(cuts, n)
    ensures Describes(Owned(cuts, n, shards, data), cuts, n, shards, data)
  {
    forall k: nat, i: nat, l: nat | k < |cuts| && i < n && Covers(cuts[k], i, l)
      ensures Cell(Owned(cuts, n, shards, data), shards, data, SeqnumIn(cuts[k], i, l), i, l)
    {
      OwnedIff(cuts, n, shards, data, k, i, l);
    }
  }

  function BatchOf(c: NewLogs, data: Data): W.Batch {
    W.Batch(c.startSeqnum, seq(c.delta, j requires 0 <= j => data((c.shard, c.startLocal + j))))
  }

  function BatchesOf(calls: seq<NewLogs>, data: Data): seq<W.Batch> {
    seq(|calls|, j requires 0 <= j < |calls| => BatchOf(calls[j], data))
  }

  lemma {:induction false} BatchesExtend(owned: Entries, lo: nat, batches: seq<W.Batch>, hi: nat, hi': nat)
    requires W.Batches(owned, lo, batches, hi) && hi <= hi' && W.NoneOwned(owned, hi, hi')
    ensures W.Batches(owned, lo, batches, hi')
  {
  }

  lemma {:induction false} BatchesMore(owned: Entries, lo: nat, batches: seq<W.Batch>, b: W.Batch)
    requires W.Batches(owned, lo, batches, b.start) && W.IsBatch(owned, b.start, b.entries)
    ensures W.Batches(owned, lo, batches + [b], b.start + |b.entries|)
  {
    assert (batches + [b])[..|batches|] == batches;
  }

  lemma {:induction false} BatchesConcat(owned: Entries, lo: nat, a: seq<W.Batch>, mid: nat, b: seq<W.Batch>, hi: nat)
    requires W.Batches(owned, lo, a, mid) && W.Batches(owned, mid, b, hi)
    ensures W.Batches(owned, lo, a + b, hi)
  {
    if b == [] {
      assert a + b == a;
      BatchesExtend(owned, lo, a, mid, hi);
    } else {
      var front, last := b[..|b| - 1], b[|b| - 1];
      BatchesConcat(owned, lo, a, mid, front, last.start);
      assert (a + b)[..|a + b| - 1] == a + front;
    }
  }

  // Whether a map holds all of a run of one shard's entries, or none of it.
  ghost predicate AllOrNone(owned: Entries, shards: set<nat>, data: Data, c: NewLogs) {
    && (c.shard in shards ==> W.IsBatch(owned, c.startSeqnum, BatchOf(c, data).entries))
    && (c.shard !in shards ==> W.NoneOwned(owned, c.startSeqnum, c.startSeqnum + c.delta))
  }

  ghost predicate CellOfRun(owned: Entries, shards: set<nat>, data: Data, c: NewLogs, j: nat) {
    Cell(owned, shards, data, c.startSeqnum + j, c.shard, c.startLocal + j)
  }

  lemma {:induction false} CellsOfRun(owned: Entries, shards: set<nat>, data: Data, c: NewLogs)
    requires forall j: nat :: j < c.delta ==> CellOfRun(owned, shards, data, c, j)
    ensures AllOrNone(owned, shards, data, c)
  {
    var batch := BatchOf(c, data).entries;
    if c.shard in shards {
      forall j | 0 <= j < |batch|
        ensures W.Owns(owned, c.startSeqnum + j, batch[j])
      {
        assert CellOfRun(owned, shards, data, c, j);
      }
    } else {
      forall s | c.startSeqnum <= s < c.startSeqnum + c.delta
        ensures s !in owned
      {
        assert CellOfRun(owned, shards, data, c, s - c.startSeqnum);
      }
    }
  }

  lemma {:induction false} ShardOwned(owned: Entries, cuts: seq<MetaLog>, n: nat, shards: set<nat>, data: Data,
                                      k: nat, i: nat)
    requires Chain(cuts, n) && Describes(owned, cuts, n, shards, data) && k < |cuts| && i < n && WellFormed(cuts[k], n)
    ensures AllOrNone(owned, shards, data, CallFor(cuts[k], i))
  {
    var m := cuts[k];
    var c := CallFor(m, i);
    forall j: nat | j < c.delta
      ensures CellOfRun(owned, shards, data, c, j)
    {
      assert Covers(m, i, c.startLocal + j);
    }
    CellsOfRun(owned, shards, data, c);
  }

  // The same for all shards of a cut.
  ghost predicate CutOwned(owned: Entries, m: MetaLog, n: nat, shards: set<nat>, data: Data) {
    |m.starts| == |m.deltas| == n && forall i: nat :: i < n ==> AllOrNone(owned, shards, data, CallFor(m, i))
  }

  lemma {:induction false} CutBatches(owned: Entries, m: MetaLog, n: nat, shards: set<nat>, data: Data, i: nat)
    requires CutOwned(owned, m, n, shards, data) && i <= n
    ensures W.Batches(owned, m.startSeqnum, BatchesOf(CallsUpTo(m, shards, i), data), m.startSeqnum + Sum(m.deltas[..i]))
  {
    if i > 0 {
      CutBatches(owned, m, n, shards, data, i - 1);
      SumPrefixStep(m.deltas, i - 1);
      BatchesOfCut(m, shards, data, i);
      BatchesStep(owned, m.startSeqnum, BatchesOf(CallsUpTo(m, shards, i - 1), data), CallFor(m, i - 1), shards, data,
                  BatchesOf(CallsUpTo(m, shards, i), data), m.startSeqnum + Sum(m.deltas[..i]));
    }
  }

  lemma {:induction false} BatchesStep(owned: Entries, lo: nat, before: seq<W.Batch>, c: NewLogs, shards: set<nat>,
                                       data: Data,
                                       after: seq<W.Batch>, hi: nat)
    requires W.Batches(owned, lo, before, c.startSeqnum) && AllOrNone(owned, shards, data, c)
    requires after == (if c.shard in shards then before + [BatchOf(c, data)] else before) && hi == c.startSeqnum + c.delta
    ensures W.Batches(owned, lo, after, hi)
  {
    if c.shard in shards {
      BatchesMore(owned, lo, before, BatchOf(c, data));
    } else {
      BatchesExtend(owned, lo, before, c.startSeqnum, c.startSeqnum + c.delta);
    }
  }

  lemma {:induction false} BatchesOfCut(m: MetaLog, shards: set<nat>, data: Data, i: nat)
    requires 0 < i <= |m.starts| == |m.deltas|
    ensures var before, after := BatchesOf(CallsUpTo(m, shards, i - 1), data), BatchesOf(CallsUpTo(m, shards, i), data);
            after == if i - 1 in shards then before + [BatchOf(CallFor(m, i - 1), data)] else before
  {
  }

  lemma {:induction false} IrrelevantNoneOwned(owned: Entries, cuts: seq<MetaLog>, n: nat, shards: set<nat>,
                                               data: Data, a: nat, b: nat)
    requires Chain(cuts, n) && Describes(owned, cuts, n, shards, data) && a <= b <= |cuts| && NoneRelevant(cuts, shards, a, b)
    ensures W.NoneOwned(owned, Total(cuts, a), Total(cuts, b))
  {
    forall s | Total(cuts, a) <= s < Total(cuts, b)
      ensures s !in owned
    {
      var k, i, l := Locate(cuts, n, b, s);
      SeqnumInRange(cuts, n, k, i, l);
      if k < a {
        SumsMonotone(cuts, k + 1, a);
      }
      assert Cell(owned, shards, data, s, i, l);
    }
  }

  // What one message hands over is what is owned between the two positions.
  ghost predicate Handed(owned: Entries, data: Data, sp: Space, o: Outcome) {
    W.Batches(owned, sp.seqnumPosition, BatchesOf(o.calls, data), o.space.seqnumPosition)
  }

  lemma {:induction false} HandedByApply(owned: Entries, sp: Space, cuts: seq<MetaLog>, data: Data, k: nat,
                                         next: Space, o: Outcome)
    requires Chain(cuts, |sp.progress|) && Describes(owned, cuts, |sp.progress|, Heard(sp), data)
    requires sp.position <= k < |cuts| && sp.seqnumPosition == Total(cuts, sp.position)
    requires NoneRelevant(cuts, Heard(sp), sp.position, k) && WellFormed(cuts[k], |sp.progress|)
    requires next.seqnumPosition == EndSeqnum(cuts[k])
    requires Handed(owned, data, next, o)
    ensures Handed(owned, data, sp,
                   Outcome(o.space, CallsOf(cuts[k], Heard(sp)) + o.calls))
  {
    var n, m, heard := |sp.progress|, cuts[k], Heard(sp);
    assert Continues(cuts, k, n);
    SumsMonotone(cuts, sp.position, k);
    IrrelevantNoneOwned(owned, cuts, n, heard, data, sp.position, k);
    assert m.deltas[..n] == m.deltas;
    forall i: nat | i < n
      ensures AllOrNone(owned, heard, data, CallFor(m, i))
    {
      ShardOwned(owned, cuts, n, heard, data, k, i);
    }
    CutBatches(owned, m, n, heard, data, n);
    HandedConcat(owned, data, sp.seqnumPosition, m.startSeqnum, CallsOf(m, heard), EndSeqnum(m), o);
  }

  lemma {:induction false} HandedConcat(owned: Entries, data: Data, lo: nat, start: nat,
                                        calls: seq<NewLogs>, mid: nat, o: Outcome)
    requires lo <= start && W.NoneOwned(owned, lo, start)
    requires W.Batches(owned, start, BatchesOf(calls, data), mid)
    requires W.Batches(owned, mid, BatchesOf(o.calls, data), o.space.seqnumPosition)
    ensures W.Batches(owned, lo, BatchesOf(calls + o.calls, data), o.space.seqnumPosition)
  {
    var a, b := BatchesOf(calls, data), BatchesOf(o.calls, data);
    assert BatchesOf(calls + o.calls, data) == a + b;
    assert [] + a == a;
    BatchesConcat(owned, lo, [], start, a, mid);
    BatchesConcat(owned, lo, a, mid, b, o.space.seqnumPosition);
  }

  lemma {:induction false} AdvanceHands(owned: Entries, sp: Space, cuts: seq<MetaLog>, data: Data)
    requires Follows(sp, cuts) && Describes(owned, cuts, |sp.progress|, Heard(sp), data)
    ensures Handed(owned, data, sp, Advance(sp))
    decreases |sp.pending|
  {
    var stop, k, next := Turn(sp, cuts);
    if !stop {
      AdvanceHands(owned, next, cuts, data);
      if k >= sp.position {
        HandedByApply(owned, sp, cuts, data, k, next, Advance(next));
      }
    }
  }

  lemma {:induction false} ProvideHandsTo(owned: Entries, sp: Space, cuts: seq<MetaLog>, data: Data, k: nat)
    requires Follows(sp, cuts) && Settled(sp, cuts) && k < |cuts| && WellFormed(cuts[k], |sp.progress|)
    requires Describes(owned, cuts, |sp.progress|, Heard(sp), data)
    ensures Handed(owned, data, sp, Provide(sp, cuts[k]))
  {
    ReceivedFollows(sp, cuts, k);
    if k >= sp.position {
      AdvanceHands(owned, sp.(pending := sp.pending[k := cuts[k]]), cuts, data);
    }
  }

  /** One message to a storage's log space, whatever the order of arrival, hands the live window
      exactly the storage's own entries between the two sequence number positions. */
  lemma {:induction false} ProvideHands(sp: Space, cuts: seq<MetaLog>, data: Data, k: nat)
    requires Follows(sp, cuts) && Settled(sp, cuts) && k < |cuts| && WellFormed(cuts[k], |sp.progress|)
    ensures Handed(Owned(cuts, |sp.progress|, Heard(sp), data), data, sp, Provide(sp, cuts[k]))
  {
    OwnedDescribes(cuts, |sp.progress|, Heard(sp), data);
    ProvideHandsTo(Owned(cuts, |sp.progress|, Heard(sp), data), sp, cuts, data, k);
  }
}
