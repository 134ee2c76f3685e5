/** LogProducer: the engine's side of a log space. */
module Producers {
  import opened MetaLogs
  import opened LogSpaces
  import opened LiteMode
  import opened Pending
  import D = Durability

  // `progress` is the metalog progress the caller must have seen to see its own entry.
  datatype AppendResult = AppendResult(seqnum: nat, local: nat, progress: nat, callerData: nat)

  class LogProducer {
    const engine: nat
    const space: LogSpace
    var nextLocal: nat
    var pendingAppends: map<nat, nat>
    var pendingResults: seq<AppendResult>
    ghost var handed: seq<Delivery>
    ghost var polled: seq<AppendResult>
    ghost var given: map<nat, nat>

    ghost function Waiting(): set<LocalId>
      reads this
    {
      set l | l in pendingAppends :: (engine, l)
    }

    // The producer as the cluster model sees it.
    ghost function Model(): D.Producer
      reads this, space, space.shardProgress
    {
      D.Producer(space.Model(), nextLocal, Waiting(), handed)
    }

    ghost predicate Valid()
      reads this, space, space.shardProgress
    {
      && space.Valid() && space.mode.Lite? && space.interested == {engine}
      && space.calls == []
      && (forall l: nat :: l in given <==> l < nextLocal)
      && Acked()
    }

    // Every entry handed over so far has been acknowledged, in order, and what waits waits with the data
    // that its append was given.
    ghost predicate Acked()
      reads this
    {
      Acks(polled + pendingResults, handed, given) && Agree(pendingAppends, given)
    }

    constructor (engine: nat, shards: nat)
      requires engine < shards
      ensures Valid() && fresh(space) && fresh(space.shardProgress)
      ensures this.engine == engine
      ensures Model() == D.Producer(Fresh(Lite, {engine}, shards), 0, {}, [])
      ensures polled == [] && pendingResults == [] && given == map[]
    {
      this.engine := engine;
      nextLocal, pendingAppends, pendingResults := 0, map[], [];
      handed, polled, given := [], [], map[];
      space := new LogSpace(Lite, {engine}, shards);
    }

    method LocalAppend(callerData: nat) returns (local: nat)
      requires Valid()
      modifies this`nextLocal, this`pendingAppends, this`given
      ensures Valid() && local == old(nextLocal) && local !in old(given)
      ensures given == old(given)[local := callerData]
      ensures pendingAppends == old(pendingAppends)[local := callerData]
      ensures Model() == D.LocalAppend(old(Model()), engine)
    {
      pendingAppends := pendingAppends[nextLocal := callerData];
      given := given[nextLocal := callerData];
      local := nextLocal;
      nextLocal := nextLocal + 1;
    }

    method PollAppendResults() returns (results: seq<AppendResult>)
      requires Valid()
      modifies this`pendingResults, this`polled
      ensures Valid() && results == old(pendingResults) && pendingResults == [] && polled == old(polled) + results
    {
      results := pendingResults;
      polled := polled + pendingResults;
      pendingResults := [];
      assert polled + [] == polled;
    }

    // false is the "Cannot find pending log entry" abort.
    method OnNewLogs(c: NewLogs) returns (ok: bool)
      requires c.shard == engine && Acked()
      modifies this`pendingAppends, this`pendingResults, this`handed
      ensures ok <==> Take(old(Waiting()), Expand(c)).Taken?
      ensures ok ==> Waiting() == Take(old(Waiting()), Expand(c)).rest && handed == old(handed) + Expand(c)
      ensures ok ==> pendingResults == old(pendingResults) + ResultsOf(c, old(pendingAppends))
      ensures ok ==> Answered(c, old(pendingAppends))
      ensures Agree(pendingAppends, old(pendingAppends)) && Acked()
    {
      for i := 0 to c.delta
        invariant Agree(pendingAppends, old(pendingAppends)) && Acked()
        invariant Take(old(Waiting()), Expand(c)[..i]) == Taken(Waiting())
        invariant handed == old(handed) + Expand(c)[..i]
        invariant forall l :: c.startLocal <= l < c.startLocal + i ==> l in old(pendingAppends)
        invariant pendingResults == old(pendingResults) + ResultsOf(c, old(pendingAppends))[..i]
      {
        ghost var before, waiting := pendingAppends, Waiting();
        assert Expand(c)[..i + 1][..i] == Expand(c)[..i];
        var found := TakeEntry(c, i);
        if !found {
          MissingStays(old(Waiting()), Expand(c), i + 1);
          return false;
        }
        ResultsPrefix(c, i, before, old(pendingAppends));
        Associative(old(pendingResults), ResultsOf(c, old(pendingAppends))[..i], [ResultAt(c, i, before)]);
        Associative(old(handed), Expand(c)[..i], [Expand(c)[i]]);
      }
      assert Expand(c)[..c.delta] == Expand(c);
      assert ResultsOf(c, old(pendingAppends))[..c.delta] == ResultsOf(c, old(pendingAppends));
      ok := true;
    }

    method TakeEntry(c: NewLogs, i: nat) returns (ok: bool)
      requires c.shard == engine && i < c.delta && Acked()
      modifies this`pendingAppends, this`pendingResults, this`handed
      ensures ok <==> (engine, c.startLocal + i) in old(Waiting())
      ensures ok ==> c.startLocal + i in old(pendingAppends) && Waiting() == old(Waiting()) - {(engine, c.startLocal + i)}
      ensures ok ==> handed == old(handed) + [Expand(c)[i]]
      ensures ok ==> pendingResults == old(pendingResults) + [ResultAt(c, i, old(pendingAppends))]
      ensures Agree(pendingAppends, old(pendingAppends)) && Acked()
    {
      var local := c.startLocal + i;
      assert (engine, local) in Waiting() <==> local in pendingAppends;
      if local !in pendingAppends {
        return false;
      }
      pendingResults := pendingResults + [AppendResult(c.startSeqnum + i, local, c.metalog + 1, pendingAppends[local])];
      pendingAppends := pendingAppends - {local};
      handed := handed + [Expand(c)[i]];
      Associative(polled, old(pendingResults), [pendingResults[|pendingResults| - 1]]);
      ok := true;
    }

    /** Receiving a metalog is the cluster model's step at an engine; false is the abort. */
    method ProvideMetaLog(m: MetaLog) returns (ok: bool)
      requires Valid() && WellFormed(m, space.shardProgress.Length)
      modifies this`pendingAppends, this`pendingResults, this`handed, space, space.shardProgress
      ensures Valid() && nextLocal == old(nextLocal)
      ensures space.Model() == Provide(old(space.Model()), m).space
      ensures var t := Take(old(Waiting()), Deliveries(Provide(old(space.Model()), m).calls));
              && (ok <==> t.Taken?)
              && (ok ==> Waiting() == t.rest)
              && (ok ==> handed == old(handed) + Deliveries(Provide(old(space.Model()), m).calls))
      ensures ok ==> pendingResults == old(pendingResults)
                                    + ResultsOfCalls(Provide(old(space.Model()), m).calls, old(pendingAppends))
    {
      var calls := HookCalls(m);
      ok := OnAllNewLogs(calls);
    }

    // The hook calls that receiving a metalog causes.
    method HookCalls(m: MetaLog) returns (calls: seq<NewLogs>)
      requires Valid() && WellFormed(m, space.shardProgress.Length)
      modifies space, space.shardProgress
      ensures Valid() && space.Model() == Provide(old(space.Model()), m).space
      ensures calls == Provide(old(space.Model()), m).calls && forall j :: 0 <= j < |calls| ==> calls[j].shard == engine
    {
      ProvideCallsHeard(space.Model(), m);
      var _ := space.ProvideMetaLog(m);
      calls := space.calls;
      space.calls := [];
    }

    method OnAllNewLogs(calls: seq<NewLogs>) returns (ok: bool)
      requires Acked() && forall j :: 0 <= j < |calls| ==> calls[j].shard == engine
      modifies this`pendingAppends, this`pendingResults, this`handed
      ensures var t := Take(old(Waiting()), Deliveries(calls));
              && (ok <==> t.Taken?)
              && (ok ==> Waiting() == t.rest && handed == old(handed) + Deliveries(calls))
      ensures ok ==> pendingResults == old(pendingResults) + ResultsOfCalls(calls, old(pendingAppends))
      ensures Agree(pendingAppends, old(pendingAppends)) && Acked()
    {
      for j := 0 to |calls|
        invariant Take(old(Waiting()), Deliveries(calls[..j])) == Taken(Waiting())
        invariant handed == old(handed) + Deliveries(calls[..j])
        invariant Agree(pendingAppends, old(pendingAppends)) && Acked()
        invariant pendingResults == old(pendingResults) + ResultsOfCalls(calls[..j], old(pendingAppends))
      {
        TakeOneMore(old(Waiting()), calls, j);
        ghost var before := pendingAppends;
        ok := OnNewLogs(calls[j]);
        if !ok {
          MissingInCalls(old(Waiting()), calls, j + 1);
          return;
        }
        ResultsOneMore(calls, j, before, old(pendingAppends));
        Associative(old(handed), Deliveries(calls[..j]), Expand(calls[j]));
        Associative(old(pendingResults), ResultsOfCalls(calls[..j], old(pendingAppends)), ResultsOf(calls[j], before));
      }
      assert calls[..|calls|] == calls;
      ok := true;
    }
  }

  lemma {:induction false} TakeOneMore(pending: set<LocalId>, calls: seq<NewLogs>, j: nat)
    requires j < |calls| && Take(pending, Deliveries(calls[..j])).Taken?
    ensures Deliveries(calls[..j + 1]) == Deliveries(calls[..j]) + Expand(calls[j])
    ensures Take(pending, Deliveries(calls[..j + 1])) == Take(Take(pending, Deliveries(calls[..j])).rest, Expand(calls[j]))
  {
    assert calls[..j + 1] == calls[..j] + [calls[j]];
    DeliveriesConcat(calls[..j], [calls[j]]);
    assert Deliveries([calls[j]]) == Expand(calls[j]);
    TakeConcat(pending, Deliveries(calls[..j]), Expand(calls[j]));
  }

  lemma {:induction false} MissingInCalls(pending: set<LocalId>, calls: seq<NewLogs>, j: nat)
    requires j <= |calls| && Take(pending, Deliveries(calls[..j])).Missing?
    ensures Take(pending, Deliveries(calls)).Missing?
  {
    assert calls == calls[..j] + calls[j..];
    DeliveriesConcat(calls[..j], calls[j..]);
    var front := Deliveries(calls[..j]);
    assert Deliveries(calls)[..|front|] == front;
    MissingStays(pending, Deliveries(calls), |front|);
  }

  function ResultAt(c: NewLogs, j: nat, appends: map<nat, nat>): AppendResult {
    var local := c.startLocal + j;
    AppendResult(c.startSeqnum + j, local, c.metalog + 1, if local in appends then appends[local] else 0)
  }

  function ResultsOf(c: NewLogs, appends: map<nat, nat>): seq<AppendResult> {
    seq(c.delta, j requires 0 <= j => ResultAt(c, j, appends))
  }

  lemma {:induction false} ResultsPrefix(c: NewLogs, i: nat, some: map<nat, nat>, all: map<nat, nat>)
    requires i < c.delta && Agree(some, all) && c.startLocal + i in some
    ensures ResultsOf(c, all)[..i + 1] == ResultsOf(c, all)[..i] + [ResultAt(c, i, some)]
  {
  }

  // One result for every entry of every call, in order.
  function ResultsOfCalls(calls: seq<NewLogs>, appends: map<nat, nat>): seq<AppendResult> {
    if calls == [] then []
    else ResultsOfCalls(calls[..|calls| - 1], appends) + ResultsOf(calls[|calls| - 1], appends)
  }

  ghost predicate Answered(c: NewLogs, appends: map<nat, nat>) {
    forall l :: c.startLocal <= l < c.startLocal + c.delta ==> l in appends
  }

  // A result acknowledges an entry that was handed over: with its sequence number, the progress after
  // its metalog and the data its append was given.
  ghost predicate Ack(r: AppendResult, d: Delivery, given: map<nat, nat>) {
    && r.seqnum == d.seqnum && r.local == d.local && r.progress == d.metalog + 1
    && d.local in given && r.callerData == given[d.local]
  }

  ghost predicate Acks(results: seq<AppendResult>, handed: seq<Delivery>, given: map<nat, nat>) {
    |results| == |handed| && forall j :: 0 <= j < |results| ==> Ack(results[j], handed[j], given)
  }

  ghost predicate Agree(some: map<nat, nat>, all: map<nat, nat>) {
    forall l :: l in some ==> l in all && some[l] == all[l]
  }

  lemma {:induction false} ResultsOneMore(calls: seq<NewLogs>, j: nat, some: map<nat, nat>, all: map<nat, nat>)
    requires j < |calls| && Agree(some, all) && Answered(calls[j], some)
    ensures ResultsOfCalls(calls[..j + 1], all) == ResultsOfCalls(calls[..j], all) + ResultsOf(calls[j], some)
  {
    assert calls[..j + 1][..j] == calls[..j];
    assert ResultsOf(calls[j], some) == ResultsOf(calls[j], all);
  }

  lemma {:induction false} CutCallsHeard(m: MetaLog, heard: set<nat>, i: nat)
    requires i <= |m.starts| == |m.deltas|
    ensures forall j :: 0 <= j < |CallsUpTo(m, heard, i)| ==> CallsUpTo(m, heard, i)[j].shard in heard
  {
    if i > 0 {
      CutCallsHeard(m, heard, i - 1);
    }
  }

  lemma {:induction false} AdvanceCallsHeard(sp: Space)
    requires ValidSpace(sp)
    ensures forall j :: 0 <= j < |Advance(sp).calls| ==> Advance(sp).calls[j].shard in Heard(sp)
    decreases |sp.pending|
  {
    if sp.pending != map[] {
      var k := Least(sp.pending.Keys);
      var rest := sp.pending - {k};
      assert rest.Keys == sp.pending.Keys - {k};
      assert |rest.Keys| == |sp.pending.Keys| - 1;
      if k < sp.position {
        AdvanceCallsHeard(sp.(pending := rest));
      } else if CanApply(sp, sp.pending[k]) {
        CutCallsHeard(sp.pending[k], Heard(sp), |sp.progress|);
        AdvanceCallsHeard(Apply(sp, sp.pending[k]).(pending := rest));
      }
    }
  }

  // The hook is called for shards the node hears only.
  lemma {:induction false} ProvideCallsHeard(sp: Space, m: MetaLog)
    requires ValidSpace(sp) && WellFormed(m, |sp.progress|)
    ensures forall j :: 0 <= j < |Provide(sp, m).calls| ==> Provide(sp, m).calls[j].shard in Heard(sp)
  {
    if m.seqnum >= sp.position {
      AdvanceCallsHeard(sp.(pending := sp.pending[m.seqnum := m]));
    }
  }

  // A loop that misses an entry early misses it in the whole batch.
  lemma {:induction false} MissingStays(pending: set<LocalId>, ds: seq<Delivery>, i: nat)
    requires i <= |ds| && Take(pending, ds[..i]).Missing?
    ensures Take(pending, ds).Missing?
  {
    if i == |ds| {
      assert ds[..i] == ds;
    } else {
      assert ds[..|ds| - 1][..i] == ds[..i];
      MissingStays(pending, ds[..|ds| - 1], i);
    }
  }
}
