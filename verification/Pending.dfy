/**
 Entries waiting for their sequence number, at the engine that appended them and
 at the storages that keep them.
 */
module Pending {
  import opened MetaLogs
  import opened LogSpaces
  import opened LiteMode

  // A shard and an index in it: the source's 64-bit localid.
  type LocalId = (nat, nat)

  // What the OnNewLogs loops do to the set of waiting entries; `Missing` is their abort.
  datatype Taken = Missing | Taken(rest: set<LocalId>)

  function Take(pending: set<LocalId>, ds: seq<Delivery>): Taken {
    if ds == [] then Taken(pending)
    else
      match Take(pending, ds[..|ds| - 1])
      case Missing => Missing
      case Taken(rest) =>
        var id := (ds[|ds| - 1].shard, ds[|ds| - 1].local);
        if id in rest then Taken(rest - {id}) else Missing
  }

  lemma {:induction false} TakeConcat(pending: set<LocalId>, a: seq<Delivery>, b: seq<Delivery>)
    requires Take(pending, a).Taken?
    ensures Take(pending, a + b) == Take(Take(pending, a).rest, b)
  {
    if b == [] {
      assert a + b == a;
    } else {
      assert (a + b)[..|a + b| - 1] == a + b[..|b| - 1];
      TakeConcat(pending, a, b[..|b| - 1]);
    }
  }

  lemma {:induction false} TakeCall(pending: set<LocalId>, c: NewLogs, delta: nat)
    requires delta <= c.delta && forall l :: c.startLocal <= l < c.startLocal + delta ==> (c.shard, l) in pending
    ensures var t := Take(pending, Expand(c)[..delta]);
            && t.Taken?
            && forall id: LocalId :: id in t.rest <==>
                 id in pending && !(id.0 == c.shard && c.startLocal <= id.1 < c.startLocal + delta)
  {
    if delta > 0 {
      TakeCall(pending, c, delta - 1);
      assert Expand(c)[..delta][..delta - 1] == Expand(c)[..delta - 1];
    }
  }

  // The entries of the first i shards of a cut that a node hears.
  ghost predicate InCut(m: MetaLog, heard: set<nat>, i: nat, id: LocalId) {
    id.0 in heard && id.0 < i && Covers(m, id.0, id.1)
  }

  lemma {:induction false} TakeCut(pending: set<LocalId>, m: MetaLog, heard: set<nat>, i: nat)
    requires i <= |m.starts| == |m.deltas|
    requires forall id :: InCut(m, heard, i, id) ==> id in pending
    ensures var t := Take(pending, Deliveries(CallsUpTo(m, heard, i)));
            t.Taken? && forall id: LocalId :: id in t.rest <==> id in pending && !InCut(m, heard, i, id)
  {
    if i > 0 {
      assert forall id :: InCut(m, heard, i - 1, id) ==> InCut(m, heard, i, id);
      TakeCut(pending, m, heard, i - 1);
      var calls := CallsUpTo(m, heard, i - 1);
      if i - 1 in heard {
        var c := CallFor(m, i - 1);
        DeliveriesConcat(calls, [c]);
        assert Deliveries([c]) == Expand(c);
        TakeConcat(pending, Deliveries(calls), Expand(c));
        TakeShard(pending, Take(pending, Deliveries(calls)).rest, m, heard, i);
      } else {
        assert CallsUpTo(m, heard, i) == calls;
      }
    }
  }

  lemma {:induction false} TakeShard(pending: set<LocalId>, rest: set<LocalId>, m: MetaLog, heard: set<nat>, i: nat)
    requires 0 < i <= |m.starts| == |m.deltas| && i - 1 in heard
    requires forall id :: InCut(m, heard, i, id) ==> id in pending
    requires forall id: LocalId :: id in rest <==> id in pending && !InCut(m, heard, i - 1, id)
    ensures var t := Take(rest, Expand(CallFor(m, i - 1)));
            t.Taken? && forall id: LocalId :: id in t.rest <==> id in pending && !InCut(m, heard, i, id)
  {
    var c := CallFor(m, i - 1);
    forall l: nat | c.startLocal <= l < c.startLocal + c.delta
      ensures (c.shard, l) in rest
    {
      assert InCut(m, heard, i, (i - 1, l));
    }
    TakeCall(rest, c, c.delta);
    assert Expand(c)[..c.delta] == Expand(c);
  }

  // Entry (i, l) is among those cuts a..b-1 hand to a node that hears `heard`.
  ghost predicate InSpan(cuts: seq<MetaLog>, heard: set<nat>, a: nat, b: nat, id: LocalId)
    requires a <= b <= |cuts|
  {
    id.0 in heard && ShardStart(cuts, a, id.0) <= id.1 < ShardStart(cuts, b, id.0)
  }

  // If everything of a range of cuts is waiting, replaying the range takes exactly that away.
  lemma {:induction false} TakeReplay(pending: set<LocalId>, cuts: seq<MetaLog>, n: nat, heard: set<nat>, a: nat,
                                      b: nat)
    requires Chain(cuts, n) && Matched(cuts) && a <= b <= |cuts| && forall i :: i in heard ==> i < n
    requires forall id :: InSpan(cuts, heard, a, b, id) ==> id in pending
    ensures var t := Take(pending, Replay(cuts, heard, a, b));
            t.Taken? && forall id: LocalId :: id in t.rest <==> id in pending && !InSpan(cuts, heard, a, b, id)
    decreases b
  {
    if a < b {
      SumsMonotone(cuts, a, b - 1);
      SumsMonotone(cuts, b - 1, b);
      TakeReplay(pending, cuts, n, heard, a, b - 1);
      assert Continues(cuts, b - 1, n);
      var m := cuts[b - 1];
      var front := Replay(cuts, heard, a, b - 1);
      TakeConcat(pending, front, Deliveries(CallsOf(m, heard)));
      var rest := Take(pending, front).rest;
      forall id: LocalId
        ensures InSpan(cuts, heard, a, b, id) <==> InSpan(cuts, heard, a, b - 1, id) || InCut(m, heard, n, id)
        ensures !(InSpan(cuts, heard, a, b - 1, id) && InCut(m, heard, n, id))
      {
      }
      TakeCut(rest, m, heard, n);
    }
  }

  /** A node that follows the cuts and has every entry they may hand it waiting takes each of them
      exactly once: no message makes its OnNewLogs loop abort. */
  lemma {:induction false} ProvideTakes(sp: Space, cuts: seq<MetaLog>, k: nat, pending: set<LocalId>)
    requires Follows(sp, cuts) && Settled(sp, cuts) && k < |cuts| && WellFormed(cuts[k], |sp.progress|)
    requires forall i, l: nat :: i in Heard(sp) && sp.progress[i] <= l < ShardStart(cuts, |cuts|, i) ==> (i, l) in pending
    ensures var o := Provide(sp, cuts[k]);
            var t := Take(pending, Deliveries(o.calls));
            && t.Taken?
            && (forall id: LocalId :: id in t.rest ==> id in pending)
            && (forall id: LocalId :: id in pending && !(id.0 in Heard(sp) && id.1 < o.space.progress[id.0]) ==> id in t.rest)
  {
    ProvideFollows(sp, cuts, k);
    var o := Provide(sp, cuts[k]);
    SumsMonotone(cuts, sp.position, o.space.position);
    SumsMonotone(cuts, o.space.position, |cuts|);
    TakeReplay(pending, cuts, |sp.progress|, Heard(sp), sp.position, o.space.position);
  }

  // ------------------------------------------------------------------------
  // Storage: contiguous progress of a shard

  function Contiguous(pending: set<LocalId>, e: nat, from: nat): (r: nat)
    ensures r >= from
    ensures forall l :: from <= l < r ==> (e, l) in pending
    ensures (e, r) !in pending
    decreases pending
  {
    if (e, from) in pending then Contiguous(pending - {(e, from)}, e, from + 1) else from
  }
}
