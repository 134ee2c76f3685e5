/**
 Lite mode refines full mode.

 Whatever the order and the number of times metalogs arrive, a log space hands
 the entries of its shards to the hook exactly once, in order and with the
 sequence numbers of an in-order replay of all metalogs.
 */
module LiteMode {
  import opened MetaLogs
  import opened LogSpaces

  // ------------------------------------------------------------------------
  // Entries handed to the hook

  datatype Delivery = Delivery(shard: nat, local: nat, seqnum: nat, metalog: nat)

  function Expand(c: NewLogs): seq<Delivery> {
    seq(c.delta, j requires 0 <= j => Delivery(c.shard, c.startLocal + j, c.startSeqnum + j, c.metalog))
  }

  function Deliveries(calls: seq<NewLogs>): seq<Delivery> {
    if calls == [] then [] else Deliveries(calls[..|calls| - 1]) + Expand(calls[|calls| - 1])
  }

  lemma {:induction false} DeliveriesConcat(a: seq<NewLogs>, b: seq<NewLogs>)
    ensures Deliveries(a + b) == Deliveries(a) + Deliveries(b)
  {
    if b == [] {
      assert a + b == a;
    } else {
      var c := a + b;
      assert c[..|c| - 1] == a + b[..|b| - 1];
      DeliveriesConcat(a, b[..|b| - 1]);
    }
  }

  predicate Matched(cuts: seq<MetaLog>) {
    forall k :: 0 <= k < |cuts| ==> |cuts[k].starts| == |cuts[k].deltas|
  }

  // What an in-order replay of cuts a, a+1, ..., b-1 hands over.
  function Replay(cuts: seq<MetaLog>, heard: set<nat>, a: nat, b: nat): seq<Delivery>
    requires b <= |cuts| && Matched(cuts)
  {
    if b <= a then [] else Replay(cuts, heard, a, b - 1) + Deliveries(CallsOf(cuts[b - 1], heard))
  }

  lemma {:induction false} ChainMatched(cuts: seq<MetaLog>, n: nat)
    requires Chain(cuts, n)
    ensures forall k :: 0 <= k < |cuts| ==> |cuts[k].starts| == |cuts[k].deltas| == n
  {
    forall k | 0 <= k < |cuts|
      ensures |cuts[k].starts| == |cuts[k].deltas| == n
    {
      assert Continues(cuts, k, n);
    }
  }

  lemma {:induction false} ReplaySplit(cuts: seq<MetaLog>, heard: set<nat>, a: nat, b: nat, c: nat)
    requires Matched(cuts) && a <= b <= c <= |cuts|
    ensures Replay(cuts, heard, a, c) == Replay(cuts, heard, a, b) + Replay(cuts, heard, b, c)
    decreases c
  {
    if b < c {
      ReplaySplit(cuts, heard, a, b, c - 1);
      Associative(Replay(cuts, heard, a, b), Replay(cuts, heard, b, c - 1), Deliveries(CallsOf(cuts[c - 1], heard)));
    } else {
      assert Replay(cuts, heard, b, c) == [];
    }
  }

  // ------------------------------------------------------------------------
  // Relevant metalogs

  ghost predicate Relevant(m: MetaLog, heard: set<nat>) {
    exists i :: i in heard && Delta(m, i) > 0
  }

  lemma {:induction false} IrrelevantSilent(m: MetaLog, heard: set<nat>, i: nat)
    requires i <= |m.starts| == |m.deltas| && !Relevant(m, heard)
    ensures Deliveries(CallsUpTo(m, heard, i)) == []
  {
    if i > 0 {
      IrrelevantSilent(m, heard, i - 1);
      if i - 1 in heard {
        assert Delta(m, i - 1) == 0;
        DeliveriesConcat(CallsUpTo(m, heard, i - 1), [CallFor(m, i - 1)]);
        assert Deliveries([CallFor(m, i - 1)]) == Expand(CallFor(m, i - 1));
      } else {
        assert CallsUpTo(m, heard, i) == CallsUpTo(m, heard, i - 1);
      }
    }
  }

  ghost predicate NoneRelevant(cuts: seq<MetaLog>, heard: set<nat>, a: nat, b: nat)
    requires b <= |cuts|
  {
    forall j :: a <= j < b ==> !Relevant(cuts[j], heard)
  }

  lemma {:induction false} IrrelevantReplay(cuts: seq<MetaLog>, heard: set<nat>, a: nat, b: nat)
    requires Matched(cuts) && b <= |cuts| && NoneRelevant(cuts, heard, a, b)
    ensures Replay(cuts, heard, a, b) == []
  {
    if a < b {
      IrrelevantReplay(cuts, heard, a, b - 1);
      IrrelevantSilent(cuts[b - 1], heard, |cuts[b - 1].deltas|);
    }
  }

  // No relevant cut in a range is the same as no progress of any heard shard over it.
  lemma {:induction false} NoneRelevantIff(cuts: seq<MetaLog>, heard: set<nat>, a: nat, b: nat)
    requires a <= b <= |cuts|
    ensures NoneRelevant(cuts, heard, a, b) <==>
            forall i :: i in heard ==> ShardStart(cuts, b, i) <= ShardStart(cuts, a, i)
    decreases b - a
  {
    if a < b {
      NoneRelevantIff(cuts, heard, a, b - 1);
      SumsMonotone(cuts, a, b - 1);
      if NoneRelevant(cuts, heard, a, b) {
        assert !Relevant(cuts[b - 1], heard);
        assert forall i :: i in heard ==> Delta(cuts[b - 1], i) == 0;
      }
    }
  }

  // ------------------------------------------------------------------------
  // A space that follows a run of cuts

  ghost predicate Follows(sp: Space, cuts: seq<MetaLog>) {
    var n := |sp.progress|;
    && ValidSpace(sp)
    && Matched(cuts)
    && Chain(cuts, n)
    && sp.position <= |cuts|
    && sp.seqnumPosition == Total(cuts, sp.position)
    && (forall i :: 0 <= i < n ==> sp.progress[i] == ShardStart(cuts, sp.position, i))
    && (forall k :: k in sp.pending ==> k < |cuts| && sp.pending[k] == cuts[k])
    && (sp.mode.Full? ==> sp.applied == cuts[..sp.position])
  }

  lemma {:induction false} FreshFollows(mode: Mode, interested: set<nat>, n: nat, cuts: seq<MetaLog>)
    requires Chain(cuts, n) && forall i :: i in interested ==> i < n
    ensures Follows(Fresh(mode, interested, n), cuts)
  {
    ChainMatched(cuts, n);
    assert cuts[..0] == [];
  }

  lemma {:induction false} FollowsMore(sp: Space, cuts: seq<MetaLog>, m: MetaLog)
    requires Follows(sp, cuts) && Chain(cuts + [m], |sp.progress|)
    ensures Follows(sp, cuts + [m])
  {
    ChainMatched(cuts + [m], |sp.progress|);
    PrefixSums(cuts, [m], sp.position);
    assert (cuts + [m])[..sp.position] == cuts[..sp.position];
  }

  // Cut k can be applied exactly when nothing relevant is missing before it.  In
  // full mode every cut is relevant, so this is "k is the next one".
  lemma {:induction false} CanApplyIff(sp: Space, cuts: seq<MetaLog>, k: nat)
    requires Follows(sp, cuts) && sp.position <= k < |cuts|
    ensures WellFormed(cuts[k], |sp.progress|)
    ensures CanApply(sp, cuts[k]) <==> NoneRelevant(cuts, Heard(sp), sp.position, k)
  {
    assert Continues(cuts, k, |sp.progress|);
    NoneRelevantIff(cuts, Heard(sp), sp.position, k);
    if sp.mode.Full? && sp.position < k {
      EveryCutRelevant(cuts, |sp.progress|, sp.position);
    }
  }

  lemma {:induction false} EveryCutRelevant(cuts: seq<MetaLog>, n: nat, k: nat)
    requires Chain(cuts, n) && k < |cuts|
    ensures Relevant(cuts[k], Shards(n))
  {
    assert Continues(cuts, k, n);
    var d := cuts[k].deltas;
    assert d[..|d|] == d;
    var i := LocateShard(d, |d|, 0);
    assert i in Shards(n) && Delta(cuts[k], i) > 0;
  }

  lemma {:induction false} ApplyFollows(sp: Space, cuts: seq<MetaLog>, k: nat)
    requires Follows(sp, cuts) && sp.position <= k < |cuts| && NoneRelevant(cuts, Heard(sp), sp.position, k)
    requires WellFormed(cuts[k], |sp.progress|)
    ensures Follows(Apply(sp, cuts[k]).(pending := sp.pending - {k}), cuts)
  {
    ChainMatched(cuts, |sp.progress|);
    assert Continues(cuts, k, |sp.progress|);
    if sp.mode.Full? && sp.position < k {
      EveryCutRelevant(cuts, |sp.progress|, sp.position);
    }
    assert sp.mode.Full? ==> cuts[..k + 1] == cuts[..k] + [cuts[k]];
  }

  // Nothing pending can be applied: a relevant cut is missing before all of them.
  ghost predicate Settled(sp: Space, cuts: seq<MetaLog>)
    requires Follows(sp, cuts)
  {
    forall k :: k in sp.pending ==>
      sp.position <= k && exists j :: sp.position <= j < k && Relevant(cuts[j], Heard(sp)) && j !in sp.pending
  }

  // A node that follows a run of cuts follows every longer one.
  lemma {:induction false} FollowsLonger(sp: Space, cuts: seq<MetaLog>, cuts': seq<MetaLog>)
    requires Follows(sp, cuts) && Settled(sp, cuts) && cuts <= cuts' && Chain(cuts', |sp.progress|)
    ensures Follows(sp, cuts') && Settled(sp, cuts')
  {
    var more := cuts'[|cuts|..];
    assert cuts' == cuts + more;
    ChainMatched(cuts', |sp.progress|);
    PrefixSums(cuts, more, sp.position);
    assert cuts'[..sp.position] == cuts[..sp.position];
  }

  // Between two states of a space, with the cuts received in between: no metalog still needed is
  // forgotten, and relevant metalogs are passed only when the space has them.
  ghost predicate Tracks(sp: Space, sp': Space, cuts: seq<MetaLog>, ks: seq<nat>) {
    && sp.position <= sp'.position <= |cuts|
    && (forall k :: k in ks || k in sp.pending ==> k < sp'.position || k in sp'.pending)
    && (forall k :: k in sp'.pending ==> k in sp.pending || k in ks)
    && (forall k :: sp.position <= k < sp'.position && Relevant(cuts[k], Heard(sp)) ==> k in sp.pending || k in ks)
    && (sp.position < sp'.position ==> sp'.position - 1 in sp.pending || sp'.position - 1 in ks)
  }

  predicate SameSpace(sp: Space, sp': Space) {
    sp'.mode == sp.mode && sp'.interested == sp.interested && |sp'.progress| == |sp.progress|
  }

  // What one message may do: it also hands over exactly what an in-order replay hands over between
  // the old and the new position.
  ghost predicate Advanced(sp: Space, o: Outcome, cuts: seq<MetaLog>)
    requires Follows(sp, cuts)
  {
    && SameSpace(sp, o.space) && Follows(o.space, cuts) && Tracks(sp, o.space, cuts, [])
    && Deliveries(o.calls) == Replay(cuts, Heard(sp), sp.position, o.space.position)
  }

  lemma {:induction false} HandedMore(sp: Space, o: Outcome, p: Outcome, cuts: seq<MetaLog>)
    requires Matched(cuts) && sp.position <= o.space.position <= p.space.position <= |cuts| && Heard(o.space) == Heard(sp)
    requires Deliveries(o.calls) == Replay(cuts, Heard(sp), sp.position, o.space.position)
    requires Deliveries(p.calls) == Replay(cuts, Heard(sp), o.space.position, p.space.position)
    ensures Deliveries(o.calls + p.calls) == Replay(cuts, Heard(sp), sp.position, p.space.position)
  {
    DeliveriesConcat(o.calls, p.calls);
    ReplaySplit(cuts, Heard(sp), sp.position, o.space.position, p.space.position);
  }

  lemma {:induction false} TracksApply(sp: Space, cuts: seq<MetaLog>, k: nat, next: Space, last: Space)
    requires sp.position <= k < |cuts| && NoneRelevant(cuts, Heard(sp), sp.position, k) && k in sp.pending
    requires next.position == k + 1 && next.pending == sp.pending - {k} && Heard(next) == Heard(sp)
    requires Tracks(next, last, cuts, [])
    ensures Tracks(sp, last, cuts, [])
  {
  }

  lemma {:induction false} TracksSelf(sp: Space, cuts: seq<MetaLog>)
    requires sp.position <= |cuts|
    ensures Tracks(sp, sp, cuts, [])
  {
  }

  lemma {:induction false} TracksSkip(sp: Space, cuts: seq<MetaLog>, k: nat, next: Space, last: Space)
    requires k < sp.position && next == sp.(pending := sp.pending - {k}) && Tracks(next, last, cuts, [])
    ensures Tracks(sp, last, cuts, [])
  {
  }

  lemma {:induction false} AdvanceFollows(sp: Space, cuts: seq<MetaLog>)
    requires Follows(sp, cuts)
    ensures Advanced(sp, Advance(sp), cuts) && Settled(Advance(sp).space, cuts)
  {
    AdvanceSettles(sp, cuts);
    AdvanceTracks(sp, cuts);
    AdvanceReplays(sp, cuts);
  }

  // One turn of the loop over the pending metalogs: it stops, drops the first one, or applies it.
  lemma {:induction false} Turn(sp: Space, cuts: seq<MetaLog>) returns (stop: bool, k: nat, next: Space)
    requires Follows(sp, cuts)
    ensures stop ==> Advance(sp) == Outcome(sp, []) && Settled(sp, cuts)
    ensures !stop ==> k in sp.pending && |next.pending| < |sp.pending| && Follows(next, cuts) && SameSpace(sp, next)
    ensures !stop && k < sp.position ==> next == sp.(pending := sp.pending - {k}) && Advance(sp) == Advance(next)
    ensures !stop && k >= sp.position ==>
              && k < |cuts| && NoneRelevant(cuts, Heard(sp), sp.position, k) && WellFormed(cuts[k], |sp.progress|)
              && next == Apply(sp, cuts[k]).(pending := sp.pending - {k})
              && Advance(sp) == Outcome(Advance(next).space, CallsOf(cuts[k], Heard(sp)) + Advance(next).calls)
  {
    stop, k, next := true, 0, sp;
    if sp.pending != map[] {
      k := Least(sp.pending.Keys);
      var rest := sp.pending - {k};
      assert rest.Keys == sp.pending.Keys - {k};
      assert |rest.Keys| == |sp.pending.Keys| - 1;
      if k < sp.position {
        stop, next := false, sp.(pending := rest);
      } else {
        CanApplyIff(sp, cuts, k);
        if CanApply(sp, cuts[k]) {
          ApplyFollows(sp, cuts, k);
          stop, next := false, Apply(sp, cuts[k]).(pending := rest);
        } else {
          StuckSettled(sp, cuts, k);
        }
      }
    }
  }

  lemma {:induction false} AdvanceSettles(sp: Space, cuts: seq<MetaLog>)
    requires Follows(sp, cuts)
    ensures SameSpace(sp, Advance(sp).space) && Follows(Advance(sp).space, cuts) && Settled(Advance(sp).space, cuts)
    decreases |sp.pending|
  {
    var stop, k, next := Turn(sp, cuts);
    if !stop {
      AdvanceSettles(next, cuts);
    }
  }

  lemma {:induction false} AdvanceTracks(sp: Space, cuts: seq<MetaLog>)
    requires Follows(sp, cuts)
    ensures Tracks(sp, Advance(sp).space, cuts, [])
    decreases |sp.pending|
  {
    TracksSelf(sp, cuts);
    var stop, k, next := Turn(sp, cuts);
    if !stop {
      AdvanceTracks(next, cuts);
      if k < sp.position {
        TracksSkip(sp, cuts, k, next, Advance(next).space);
      } else {
        TracksApply(sp, cuts, k, next, Advance(next).space);
      }
    }
  }

  // What has been handed over is what an in-order replay hands over from position a on.
  ghost predicate Replays(cuts: seq<MetaLog>, heard: set<nat>, a: nat, o: Outcome) {
    && Matched(cuts) && a <= o.space.position <= |cuts|
    && Deliveries(o.calls) == Replay(cuts, heard, a, o.space.position)
  }

  lemma {:induction false} ReplaysNothing(cuts: seq<MetaLog>, heard: set<nat>, sp: Space)
    requires Matched(cuts) && sp.position <= |cuts|
    ensures Replays(cuts, heard, sp.position, Outcome(sp, []))
  {
  }

  lemma {:induction false} ReplaysMore(cuts: seq<MetaLog>, heard: set<nat>, a: nat, k: nat, o: Outcome)
    requires a <= k < |cuts| && NoneRelevant(cuts, heard, a, k) && Replays(cuts, heard, k + 1, o)
    ensures Replays(cuts, heard, a, Outcome(o.space, CallsOf(cuts[k], heard) + o.calls))
  {
    DeliveriesConcat(CallsOf(cuts[k], heard), o.calls);
    IrrelevantReplay(cuts, heard, a, k);
    assert Replay(cuts, heard, a, k + 1) == Deliveries(CallsOf(cuts[k], heard));
    ReplaySplit(cuts, heard, a, k + 1, o.space.position);
  }

  lemma {:induction false} AdvanceReplays(sp: Space, cuts: seq<MetaLog>)
    requires Follows(sp, cuts)
    ensures Replays(cuts, Heard(sp), sp.position, Advance(sp))
    decreases |sp.pending|
  {
    var stop, k, next := Turn(sp, cuts);
    if stop {
      ReplaysNothing(cuts, Heard(sp), sp);
    } else {
      AdvanceReplays(next, cuts);
      TurnReplays(sp, cuts, k, next, Advance(next), Advance(sp));
    }
  }

  lemma {:induction false} TurnReplays(sp: Space, cuts: seq<MetaLog>, k: nat, next: Space, o: Outcome, o': Outcome)
    requires Heard(next) == Heard(sp) && Replays(cuts, Heard(next), next.position, o)
    requires k < sp.position ==> next.position == sp.position && o' == o
    requires k >= sp.position ==>
               && k < |cuts| && NoneRelevant(cuts, Heard(sp), sp.position, k) && next.position == k + 1
               && |cuts[k].starts| == |cuts[k].deltas| && o' == Outcome(o.space, CallsOf(cuts[k], Heard(sp)) + o.calls)
    ensures Replays(cuts, Heard(sp), sp.position, o')
  {
    if k >= sp.position {
      ReplaysMore(cuts, Heard(sp), sp.position, k, o);
    }
  }

  lemma {:induction false} StuckSettled(sp: Space, cuts: seq<MetaLog>, k: nat)
    requires Follows(sp, cuts) && k in sp.pending && forall j :: j in sp.pending ==> k <= j
    requires sp.position <= k && !NoneRelevant(cuts, Heard(sp), sp.position, k)
    ensures Settled(sp, cuts)
  {
    var j :| sp.position <= j < k && Relevant(cuts[j], Heard(sp));
    assert j !in sp.pending;
  }

  lemma {:induction false} ReceivedFollows(sp: Space, cuts: seq<MetaLog>, k: nat)
    requires Follows(sp, cuts) && k < |cuts|
    ensures WellFormed(cuts[k], |sp.progress|) && cuts[k].seqnum == k && Follows(Received(sp, cuts, k), cuts)
  {
    assert Continues(cuts, k, |sp.progress|);
  }

  // One arrival of cut k, which may be a duplicate or out of order.
  lemma {:induction false} ProvideFollows(sp: Space, cuts: seq<MetaLog>, k: nat)
    requires Follows(sp, cuts) && Settled(sp, cuts) && k < |cuts|
    ensures WellFormed(cuts[k], |sp.progress|)
    ensures var received := Received(sp, cuts, k);
            Follows(received, cuts) && Advanced(received, Provide(sp, cuts[k]), cuts)
    ensures Settled(Provide(sp, cuts[k]).space, cuts)
  {
    ReceivedFollows(sp, cuts, k);
    if k >= sp.position {
      AdvanceFollows(sp.(pending := sp.pending[k := cuts[k]]), cuts);
    }
  }

  // ------------------------------------------------------------------------
  // Any arrival order

  ghost predicate Cuts(ks: seq<nat>, cuts: seq<MetaLog>) {
    forall j :: 0 <= j < |ks| ==> ks[j] < |cuts|
  }

  // The outcome of receiving the cuts with the given numbers, one after another.
  ghost function Arrive(sp: Space, cuts: seq<MetaLog>, ks: seq<nat>): (o: Outcome)
    requires ValidSpace(sp) && Chain(cuts, |sp.progress|) && Cuts(ks, cuts)
    ensures ValidSpace(o.space) && |o.space.progress| == |sp.progress|
    ensures o.space.mode == sp.mode && o.space.interested == sp.interested
  {
    if ks == [] then Outcome(sp, [])
    else
      var o := Arrive(sp, cuts, ks[..|ks| - 1]);
      var k := ks[|ks| - 1];
      ChainMatched(cuts, |sp.progress|);
      var p := Provide(o.space, cuts[k]);
      Outcome(p.space, o.calls + p.calls)
  }

  ghost predicate Arrived(sp: Space, o: Outcome, cuts: seq<MetaLog>, ks: seq<nat>)
    requires Follows(sp, cuts)
  {
    && SameSpace(sp, o.space) && Follows(o.space, cuts) && Settled(o.space, cuts) && Tracks(sp, o.space, cuts, ks)
    && Deliveries(o.calls) == Replay(cuts, Heard(sp), sp.position, o.space.position)
  }

  lemma {:induction false} ArriveFollows(sp: Space, cuts: seq<MetaLog>, ks: seq<nat>)
    requires Follows(sp, cuts) && Settled(sp, cuts) && Cuts(ks, cuts)
    ensures Arrived(sp, Arrive(sp, cuts, ks), cuts, ks)
  {
    ArriveSettles(sp, cuts, ks);
    ArriveTracks(sp, cuts, ks);
  }

  lemma {:induction false} ArriveSettles(sp: Space, cuts: seq<MetaLog>, ks: seq<nat>)
    requires Follows(sp, cuts) && Settled(sp, cuts) && Cuts(ks, cuts)
    ensures var sp' := Arrive(sp, cuts, ks).space;
            SameSpace(sp, sp') && Follows(sp', cuts) && Settled(sp', cuts)
  {
    if ks != [] {
      ArriveSettles(sp, cuts, ks[..|ks| - 1]);
      ProvideFollows(Arrive(sp, cuts, ks[..|ks| - 1]).space, cuts, ks[|ks| - 1]);
    }
  }

  lemma {:induction false} ArriveTracks(sp: Space, cuts: seq<MetaLog>, ks: seq<nat>)
    requires Follows(sp, cuts) && Settled(sp, cuts) && Cuts(ks, cuts)
    ensures var o := Arrive(sp, cuts, ks);
            Tracks(sp, o.space, cuts, ks) && Deliveries(o.calls) == Replay(cuts, Heard(sp), sp.position, o.space.position)
  {
    if ks != [] {
      var front, k := ks[..|ks| - 1], ks[|ks| - 1];
      assert ks == front + [k];
      ArriveTracks(sp, cuts, front);
      ArriveSettles(sp, cuts, front);
      OneMoreArrives(sp, Arrive(sp, cuts, front), cuts, front, k);
    }
  }

  lemma {:induction false} OneMoreArrives(sp: Space, o: Outcome, cuts: seq<MetaLog>, ks: seq<nat>, k: nat)
    requires Follows(sp, cuts) && Arrived(sp, o, cuts, ks) && k < |cuts|
    ensures WellFormed(cuts[k], |sp.progress|)
    ensures var p := Provide(o.space, cuts[k]);
            && Tracks(sp, p.space, cuts, ks + [k])
            && Deliveries(o.calls + p.calls) == Replay(cuts, Heard(sp), sp.position, p.space.position)
  {
    ProvideFollows(o.space, cuts, k);
    var p := Provide(o.space, cuts[k]);
    TracksMore(sp, o.space, p.space, cuts, ks, k);
    HandedMore(sp, o, p, cuts);
  }

  function Received(sp: Space, cuts: seq<MetaLog>, k: nat): Space
    requires k < |cuts|
  {
    if k < sp.position then sp else sp.(pending := sp.pending[k := cuts[k]])
  }

  lemma {:induction false} TracksMore(sp: Space, mid: Space, last: Space, cuts: seq<MetaLog>, ks: seq<nat>, k: nat)
    requires k < |cuts| && Tracks(sp, mid, cuts, ks) && Heard(mid) == Heard(sp)
    requires Tracks(Received(mid, cuts, k), last, cuts, [])
    ensures Tracks(sp, last, cuts, ks + [k])
  {
    var received := Received(mid, cuts, k);
    assert forall j :: j in ks + [k] <==> j in ks || j == k;
    forall j | sp.position <= j < last.position && Relevant(cuts[j], Heard(sp))
      ensures j in sp.pending || j in ks + [k]
    {
      if j >= mid.position {
        assert j in received.pending;
      }
    }
  }

  // Keep the deliveries of some shards.
  function Only(ds: seq<Delivery>, shards: set<nat>): seq<Delivery> {
    if ds == [] then []
    else Only(ds[..|ds| - 1], shards) + if ds[|ds| - 1].shard in shards then [ds[|ds| - 1]] else []
  }

  lemma {:induction false} OnlyConcat(a: seq<Delivery>, b: seq<Delivery>, shards: set<nat>)
    ensures Only(a + b, shards) == Only(a, shards) + Only(b, shards)
  {
    if b == [] {
      assert a + b == a;
    } else {
      assert (a + b)[..|a + b| - 1] == a + b[..|b| - 1];
      OnlyConcat(a, b[..|b| - 1], shards);
    }
  }

  lemma {:induction false} OnlyUniform(ds: seq<Delivery>, i: nat, shards: set<nat>)
    requires forall j :: 0 <= j < |ds| ==> ds[j].shard == i
    ensures Only(ds, shards) == if i in shards then ds else []
  {
    if ds != [] {
      OnlyUniform(ds[..|ds| - 1], i, shards);
      assert ds == ds[..|ds| - 1] + [ds[|ds| - 1]];
    }
  }

  // One more shard of a cut.
  lemma {:induction false} CutDeliveries(m: MetaLog, heard: set<nat>, i: nat)
    requires 0 < i <= |m.starts| == |m.deltas|
    ensures Deliveries(CallsUpTo(m, heard, i))
         == Deliveries(CallsUpTo(m, heard, i - 1)) + if i - 1 in heard then Expand(CallFor(m, i - 1)) else []
  {
    var c := CallFor(m, i - 1);
    if i - 1 in heard {
      DeliveriesOfOne(c);
      DeliveriesConcat(CallsUpTo(m, heard, i - 1), [c]);
    } else {
      assert CallsUpTo(m, heard, i) == CallsUpTo(m, heard, i - 1);
    }
  }

  lemma {:induction false} OnlyOfCut(m: MetaLog, heard: set<nat>, shards: set<nat>, i: nat)
    requires i <= |m.starts| == |m.deltas|
    ensures Only(Deliveries(CallsUpTo(m, heard, i)), shards) == Deliveries(CallsUpTo(m, heard * shards, i))
  {
    if i > 0 {
      OnlyOfCut(m, heard, shards, i - 1);
      CutDeliveries(m, heard, i);
      CutDeliveries(m, heard * shards, i);
      OnlyOfShard(m, heard, shards, i - 1);
      OnlyConcat(Deliveries(CallsUpTo(m, heard, i - 1)), ShardDeliveries(m, heard, i - 1), shards);
    }
  }

  // What a cut holds for one shard, if it is heard.
  function ShardDeliveries(m: MetaLog, heard: set<nat>, i: nat): seq<Delivery>
    requires i < |m.starts| == |m.deltas|
  {
    if i in heard then Expand(CallFor(m, i)) else []
  }

  lemma {:induction false} OnlyOfShard(m: MetaLog, heard: set<nat>, shards: set<nat>, i: nat)
    requires i < |m.starts| == |m.deltas|
    ensures Only(ShardDeliveries(m, heard, i), shards) == ShardDeliveries(m, heard * shards, i)
  {
    OnlyUniform(Expand(CallFor(m, i)), i, shards);
  }

  lemma {:induction false} OnlyOfReplay(cuts: seq<MetaLog>, heard: set<nat>, shards: set<nat>, a: nat, b: nat)
    requires Matched(cuts) && b <= |cuts|
    ensures Only(Replay(cuts, heard, a, b), shards) == Replay(cuts, heard * shards, a, b)
  {
    if a < b {
      var m := cuts[b - 1];
      OnlyOfCut(m, heard, shards, |m.deltas|);
      OnlyOfReplay(cuts, heard, shards, a, b - 1);
      OnlyOfBoth(Replay(cuts, heard, a, b - 1), Deliveries(CallsOf(m, heard)), shards,
                 Replay(cuts, heard * shards, a, b - 1), Deliveries(CallsOf(m, heard * shards)));
    }
  }

  lemma {:induction false} OnlyOfBoth(a: seq<Delivery>, b: seq<Delivery>, shards: set<nat>, onlyA: seq<Delivery>,
                                      onlyB: seq<Delivery>)
    requires Only(a, shards) == onlyA && Only(b, shards) == onlyB
    ensures Only(a + b, shards) == onlyA + onlyB
  {
    OnlyConcat(a, b, shards);
  }

  // The entries of one shard come in the order of their local indexes, none twice
  // and none missing, each with the sequence number of the total order.
  lemma {:induction false} ReplayOfShard(cuts: seq<MetaLog>, n: nat, i: nat, b: nat)
    requires Chain(cuts, n) && i < n && b <= |cuts|
    ensures Matched(cuts) && |Replay(cuts, {i}, 0, b)| == ShardStart(cuts, b, i) <= ShardStart(cuts, |cuts|, i)
    ensures forall l :: 0 <= l < ShardStart(cuts, b, i) ==>
              var d := Replay(cuts, {i}, 0, b)[l];
              && d.shard == i && d.local == l && d.seqnum == SeqnumOf(cuts, n, i, l)
              && d.metalog < b && Covers(cuts[d.metalog], i, l)
  {
    ChainMatched(cuts, n);
    SumsMonotone(cuts, b, |cuts|);
    if b > 0 {
      ReplayOfShard(cuts, n, i, b - 1);
      var m, front := cuts[b - 1], Replay(cuts, {i}, 0, b - 1);
      var here := Expand(CallFor(m, i));
      CutOfShard(m, i, |m.deltas|);
      var all: seq<Delivery> := front + here;
      assert Replay(cuts, {i}, 0, b) == all;
      assert Continues(cuts, b - 1, n);
      forall l | 0 <= l < ShardStart(cuts, b, i)
        ensures var d: Delivery := all[l];
                && d.shard == i && d.local == l && d.seqnum == SeqnumOf(cuts, n, i, l)
                && d.metalog < b && Covers(cuts[d.metalog], i, l)
      {
        if l >= |front| {
          SeqnumOfIs(cuts, n, b - 1, i, l);
        }
      }
    }
  }

  lemma {:induction false} CutOfShard(m: MetaLog, i: nat, j: nat)
    requires i < |m.deltas| == |m.starts| && j <= |m.deltas|
    ensures Deliveries(CallsUpTo(m, {i}, j)) == if i < j then Expand(CallFor(m, i)) else []
  {
    CallsOfShard(m, i, j);
    DeliveriesOfOne(CallFor(m, i));
  }

  lemma {:induction false} CallsOfShard(m: MetaLog, i: nat, j: nat)
    requires i < |m.deltas| == |m.starts| && j <= |m.deltas|
    ensures CallsUpTo(m, {i}, j) == if i < j then [CallFor(m, i)] else []
  {
    if j > 0 {
      CallsOfShard(m, i, j - 1);
    }
  }

  lemma {:induction false} DeliveriesOfOne(c: NewLogs)
    ensures Deliveries([c]) == Expand(c)
  {
    assert [c][..0] == [];
    assert Deliveries([]) + Expand(c) == Expand(c);
  }

  /** Lite mode refines full mode: after any arrivals, what the hook was handed is
      what a full in-order replay up to the reached position hands over, restricted
      to the shards of interest, and no relevant metalog below that position was left out. */
  lemma {:induction false} LiteRefinesFull(interested: set<nat>, n: nat, cuts: seq<MetaLog>, ks: seq<nat>)
    requires Chain(cuts, n) && (forall i :: i in interested ==> i < n) && Cuts(ks, cuts)
    ensures Matched(cuts)
    ensures var o := Arrive(Fresh(Lite, interested, n), cuts, ks);
            && o.space.position <= |cuts|
            && Deliveries(o.calls) == Only(Replay(cuts, Shards(n), 0, o.space.position), interested)
            && forall k :: 0 <= k < o.space.position && Relevant(cuts[k], interested) ==> k in ks
  {
    var sp := Fresh(Lite, interested, n);
    FreshFollows(Lite, interested, n, cuts);
    ArriveFollows(sp, cuts, ks);
    var o := Arrive(sp, cuts, ks);
    OnlyOfReplay(cuts, Shards(n), interested, 0, o.space.position);
    assert Shards(n) * interested == interested;
  }

  // Once every relevant cut below `b` has been received, everything below `b` has been handed over.
  lemma {:induction false} NothingLeft(sp: Space, cuts: seq<MetaLog>, b: nat)
    requires Follows(sp, cuts) && Settled(sp, cuts) && b <= |cuts|
    requires forall k :: 0 <= k < b && Relevant(cuts[k], Heard(sp)) ==> k < sp.position || k in sp.pending
    ensures NoneRelevant(cuts, Heard(sp), sp.position, b)
  {
    forall j | sp.position <= j < b
      ensures !Relevant(cuts[j], Heard(sp))
    {
    }
  }

  /** When all relevant metalogs have arrived, in whatever order and however often, each shard of
      interest has been handed over completely: entry l of the shard is its l-th delivery and
      carries the sequence number of the total order.  So two nodes never disagree on one. */
  lemma {:induction false} LiteDeliversAll(interested: set<nat>, n: nat, cuts: seq<MetaLog>, ks: seq<nat>, i: nat)
    requires Chain(cuts, n) && (forall i :: i in interested ==> i < n) && Cuts(ks, cuts)
    requires forall k :: 0 <= k < |cuts| && Relevant(cuts[k], interested) ==> k in ks
    requires i in interested
    ensures var ds := Only(Deliveries(Arrive(Fresh(Lite, interested, n), cuts, ks).calls), {i});
            && |ds| == ShardStart(cuts, |cuts|, i)
            && forall l :: 0 <= l < |ds| ==>
                 ds[l].shard == i && ds[l].local == l && ds[l].seqnum == SeqnumOf(cuts, n, i, l)
  {
    var sp := Fresh(Lite, interested, n);
    FreshFollows(Lite, interested, n, cuts);
    ArriveFollows(sp, cuts, ks);
    var o := Arrive(sp, cuts, ks);
    assert Replay(cuts, interested, 0, |cuts|) == Deliveries(o.calls) by {
      NothingLeft(o.space, cuts, |cuts|);
      IrrelevantReplay(cuts, interested, o.space.position, |cuts|);
      ReplaySplit(cuts, interested, 0, o.space.position, |cuts|);
    }
    OnlyOfReplay(cuts, interested, {i}, 0, |cuts|);
    assert interested * {i} == {i};
    ReplayOfShard(cuts, n, i, |cuts|);
  }
}
