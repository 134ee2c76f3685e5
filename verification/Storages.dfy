/** LogStorage: the storage node's side of a log space. */
module Storages {
  import opened MetaLogs
  import opened LogSpaces
  import opened LiteMode
  import opened Pending
  import opened Producers
  import opened StorageDelivery
  import W = StorageWindow
  import L = Lookup

  function IndexOf(c: NewLogs, data: Data): seq<L.IndexEntry> {
    seq(c.delta, j requires 0 <= j =>
      var entry := data((c.shard, c.startLocal + j));
      L.IndexEntry(c.startSeqnum + j, c.shard, entry.userLogspace, entry.tags))
  }

  function IndexOfCalls(calls: seq<NewLogs>, data: Data): seq<L.IndexEntry> {
    if calls == [] then [] else IndexOfCalls(calls[..|calls| - 1], data) + IndexOf(calls[|calls| - 1], data)
  }

  // What an index is to know of one entry, and of several.
  function Description(d: Delivery, data: Data): L.IndexEntry {
    L.IndexEntry(d.seqnum, d.shard, data((d.shard, d.local)).userLogspace, data((d.shard, d.local)).tags)
  }

  function Described(ds: seq<Delivery>, data: Data): seq<L.IndexEntry> {
    seq(|ds|, j requires 0 <= j < |ds| => Description(ds[j], data))
  }

  /** The index data describes every entry that is handed over, in order. */
  lemma {:induction false} IndexDescribes(calls: seq<NewLogs>, data: Data)
    ensures IndexOfCalls(calls, data) == Described(Deliveries(calls), data)
  {
    if calls != [] {
      var front, last := calls[..|calls| - 1], calls[|calls| - 1];
      IndexDescribes(front, data);
      CallDescribed(last, data);
      DescribedBoth(Deliveries(front), Expand(last), data);
    }
  }

  lemma {:induction false} CallDescribed(c: NewLogs, data: Data)
    ensures Described(Expand(c), data) == IndexOf(c, data)
  {
  }

  lemma {:induction false} DescribedBoth(a: seq<Delivery>, b: seq<Delivery>, data: Data)
    ensures Described(a + b, data) == Described(a, data) + Described(b, data)
  {
  }

  // The window after handing over entries up to a position.
  function Applied(w: W.Window, maxLive: nat, batches: seq<W.Batch>, position: nat): W.Window {
    W.ApplyBatches(w, maxLive, batches).(seqnumPosition := position)
  }

  // What handing over entries changes at a storage.
  datatype Contents = Contents(ids: set<LocalId>, handed: seq<Delivery>, index: seq<L.IndexEntry>, window: W.Window)

  function WithEntry(x: Contents, maxLive: nat, c: NewLogs, data: Data, i: nat): Contents
    requires i < c.delta
  {
    Contents(x.ids - {(c.shard, c.startLocal + i)}, x.handed + [Expand(c)[i]], x.index + [IndexOf(c, data)[i]],
             W.AddEntry(x.window, maxLive, c.startSeqnum + i, BatchOf(c, data).entries[i]))
  }

  // The contents after the first `i` entries of a call.
  ghost predicate AfterEntries(x: Contents, maxLive: nat, c: NewLogs, data: Data, i: nat, y: Contents)
    requires i <= c.delta
  {
    && Take(x.ids, Expand(c)[..i]) == Taken(y.ids)
    && y.handed == x.handed + Expand(c)[..i]
    && y.index == x.index + IndexOf(c, data)[..i]
    && y.window == W.AddEntries(W.FailPast(x.window, c.startSeqnum), maxLive, c.startSeqnum, BatchOf(c, data).entries[..i])
  }

  lemma {:induction false} OneMoreEntry(x: Contents, maxLive: nat, c: NewLogs, data: Data, i: nat, y: Contents)
    requires i < c.delta && AfterEntries(x, maxLive, c, data, i, y)
    ensures (c.shard, c.startLocal + i) in y.ids ==>
              AfterEntries(x, maxLive, c, data, i + 1, WithEntry(y, maxLive, c, data, i))
    ensures (c.shard, c.startLocal + i) !in y.ids ==> Take(x.ids, Expand(c)).Missing?
  {
    var ds, batch := Expand(c), BatchOf(c, data).entries;
    assert ds[..i + 1][..i] == ds[..i] && batch[..i + 1][..i] == batch[..i];
    if (c.shard, c.startLocal + i) !in y.ids {
      MissingStays(x.ids, ds, i + 1);
    }
  }

  // The contents after a call, and after a sequence of calls.
  ghost predicate AfterCall(x: Contents, maxLive: nat, c: NewLogs, data: Data, y: Contents) {
    && Take(x.ids, Expand(c)) == Taken(y.ids)
    && y.handed == x.handed + Expand(c)
    && y.index == x.index + IndexOf(c, data)
    && y.window == W.OnNewLogs(x.window, maxLive, c.startSeqnum, BatchOf(c, data).entries)
  }

  lemma {:induction false} AllEntries(x: Contents, maxLive: nat, c: NewLogs, data: Data, y: Contents)
    requires AfterEntries(x, maxLive, c, data, c.delta, y)
    ensures AfterCall(x, maxLive, c, data, y)
  {
    assert Expand(c)[..c.delta] == Expand(c) && IndexOf(c, data)[..c.delta] == IndexOf(c, data);
    assert BatchOf(c, data).entries[..c.delta] == BatchOf(c, data).entries;
  }

  ghost predicate AfterCalls(x: Contents, maxLive: nat, calls: seq<NewLogs>, data: Data, y: Contents) {
    && Take(x.ids, Deliveries(calls)) == Taken(y.ids)
    && y.handed == x.handed + Deliveries(calls)
    && y.index == x.index + IndexOfCalls(calls, data)
    && y.window == W.ApplyBatches(x.window, maxLive, BatchesOf(calls, data))
  }

  lemma {:induction false} OneMoreCall(x: Contents, maxLive: nat, calls: seq<NewLogs>, data: Data, j: nat,
                                       y: Contents, z: Contents)
    requires j < |calls| && AfterCalls(x, maxLive, calls[..j], data, y) && AfterCall(y, maxLive, calls[j], data, z)
    ensures AfterCalls(x, maxLive, calls[..j + 1], data, z)
  {
    TakeOneMore(x.ids, calls, j);
    Associative(x.handed, Deliveries(calls[..j]), Expand(calls[j]));
    MoreIndexData(calls, data, j);
    Associative(x.index, IndexOfCalls(calls[..j], data), IndexOf(calls[j], data));
    MoreBatches(x.window, maxLive, calls, data, j);
  }

  lemma {:induction false} MoreIndexData(calls: seq<NewLogs>, data: Data, j: nat)
    requires j < |calls|
    ensures IndexOfCalls(calls[..j + 1], data) == IndexOfCalls(calls[..j], data) + IndexOf(calls[j], data)
  {
    assert calls[..j + 1][..j] == calls[..j];
  }

  lemma {:induction false} MoreBatches(w: W.Window, maxLive: nat, calls: seq<NewLogs>, data: Data, j: nat)
    requires j < |calls|
    ensures W.ApplyBatches(w, maxLive, BatchesOf(calls[..j + 1], data))
         == W.OnNewLogs(W.ApplyBatches(w, maxLive, BatchesOf(calls[..j], data)), maxLive, calls[j].startSeqnum,
                        BatchOf(calls[j], data).entries)
  {
    assert BatchesOf(calls[..j + 1], data)[..j] == BatchesOf(calls[..j], data);
  }

  class LogStorage {
    const sources: seq<nat>
    const maxLive: nat
    const space: LogSpace
    var progress: map<nat, nat>
    var dirty: bool
    var pendingEntries: map<LocalId, W.LogEntry>
    var live: seq<nat>
    var entries: map<nat, W.LogEntry>
    var persisted: nat
    var waiting: seq<W.Request>
    var results: seq<W.ReadResult>
    var indexData: seq<L.IndexEntry>
    ghost var handed: seq<Delivery>

    // The storage as the cluster model sees it.
    ghost function Model(): D.Storage
      reads this, space, space.shardProgress
    {
      D.Storage(space.Model(), progress, pendingEntries.Keys, handed)
    }

    // The live window, with a given position.
    function Window(position: nat): W.Window
      reads this
    {
      W.Window(live, entries, persisted, position, waiting, results)
    }

    ghost predicate Valid()
      reads this, space, space.shardProgress
    {
      && space.Valid() && space.mode.Lite? && space.calls == []
      && (forall i :: i in space.interested <==> i in sources)
      && progress.Keys == space.interested
    }

    ghost predicate Holds(data: Data)
      reads this
    {
      forall id :: id in pendingEntries ==> pendingEntries[id] == data(id)
    }

    constructor (sources: seq<nat>, shards: nat, maxLive: nat)
      requires forall i :: 0 <= i < |sources| ==> sources[i] < shards
      ensures Valid() && fresh(space) && fresh(space.shardProgress)
      ensures this.sources == sources && this.maxLive == maxLive && !dirty && indexData == []
      ensures Model() == D.Storage(Fresh(Lite, (set e | e in sources), shards), (map e | e in sources :: 0), {}, [])
      ensures Window(0) == W.Window([], map[], 0, 0, [], [])
    {
      this.sources, this.maxLive := sources, maxLive;
      progress, dirty := map e | e in sources :: 0, false;
      pendingEntries, live, entries, persisted := map[], [], map[], 0;
      waiting, results, indexData := [], [], [];
      handed := [];
      space := new LogSpace(Lite, (set e | e in sources), shards);
    }

    /** An entry of an engine this node is no storage of is refused. */
    method Store(e: nat, l: nat, entry: W.LogEntry) returns (ok: bool)
      requires Valid()
      modifies this`pendingEntries, this`progress, this`dirty
      ensures Valid() && (ok <==> e in sources)
      ensures ok ==> Model() == D.StoreEntry(old(Model()), e, l) && pendingEntries == old(pendingEntries)[(e, l) := entry]
      ensures ok ==> (dirty <==> old(dirty) || progress[e] > old(progress)[e])
      ensures !ok ==> unchanged(this)
    {
      if e !in sources {
        return false;
      }
      pendingEntries := pendingEntries[(e, l) := entry];
      assert pendingEntries.Keys == old(pendingEntries.Keys) + {(e, l)};
      AdvanceShardProgress(e);
      ok := true;
    }

    method AdvanceShardProgress(e: nat)
      requires Valid() && e in progress
      modifies this`progress, this`dirty
      ensures Valid() && progress == old(progress)[e := Contiguous(pendingEntries.Keys, e, old(progress)[e])]
      ensures dirty <==> old(dirty) || progress[e] > old(progress)[e]
    {
      ghost var goal := Contiguous(pendingEntries.Keys, e, progress[e]);
      var current := progress[e];
      while (e, current) in pendingEntries
        invariant progress[e] <= current <= goal
        decreases goal - current
      {
        current := current + 1;
      }
      if current > progress[e] {
        dirty := true;
        progress := progress[e := current];
      }
    }

    /** Nothing when nothing has changed since the last report. */
    method GrabShardProgressForSending() returns (sent: bool, report: seq<nat>)
      requires Valid()
      modifies this`dirty
      ensures Valid() && !dirty && sent == old(dirty)
      ensures forall i :: 0 <= i < |sources| ==> sources[i] in Model().progress
      ensures report == if sent then D.ReportOf(Model(), sources) else []
    {
      report := [];
      if !dirty {
        return false, report;
      }
      for i := 0 to |sources|
        invariant |report| == i && forall j :: 0 <= j < i ==> report[j] == progress[sources[j]]
      {
        report := report + [progress[sources[i]]];
      }
      dirty := false;
      sent := true;
    }

    method ReadAt(r: W.Request)
      requires Valid()
      modifies this`waiting, this`results
      ensures Valid() && Window(space.seqnumPosition) == W.ReadAt(old(Window(space.seqnumPosition)), r)
    {
      if r.seqnum >= space.seqnumPosition {
        waiting := W.InsertRequest(waiting, r);
        return;
      }
      if r.seqnum in entries {
        results := results + [W.ReadResult(r, W.Ok(entries[r.seqnum]))];
      } else if r.seqnum < persisted {
        results := results + [W.ReadResult(r, W.LookupDB)];
      } else {
        results := results + [W.ReadResult(r, W.Failed)];
      }
    }

    /** The part of the window that is not in the database yet. */
    method GrabLogEntriesForPersistence() returns (ok: bool, batch: seq<W.LogEntry>, newPosition: nat)
      requires forall s :: s in live ==> s in entries
      ensures ok <==> W.CanGrab(Window(0))
      ensures ok ==> (forall j :: 0 <= j < |W.Grabbed(Window(0))| ==> W.Grabbed(Window(0))[j] in entries)
      ensures ok ==> batch == W.EntriesOf(Window(0), W.Grabbed(Window(0))) && newPosition == live[|live| - 1] + 1
    {
      batch, newPosition := [], 0;
      if live == [] || live[|live| - 1] < persisted {
        return false, batch, newPosition;
      }
      var first := W.LowerBound(live, persisted);
      for i := first to |live|
        invariant |batch| == i - first && forall j :: 0 <= j < |batch| ==> batch[j] == entries[live[first + j]]
      {
        batch := batch + [entries[live[i]]];
      }
      newPosition := live[|live| - 1] + 1;
      ok := true;
    }

    method LogEntriesPersisted(newPosition: nat, ghost p: nat)
      modifies this`persisted, this`live, this`entries
      ensures Window(p) == W.LogEntriesPersisted(old(Window(p)), maxLive, newPosition)
      ensures persisted == newPosition
    {
      persisted := newPosition;
      ShrinkLiveEntriesIfNeeded(p);
    }

    method ShrinkLiveEntriesIfNeeded(ghost p: nat)
      modifies this`live, this`entries
      ensures Window(p) == W.Shrink(old(Window(p)), maxLive)
    {
      while |live| > maxLive && live[0] < persisted
        invariant W.Shrink(Window(p), maxLive) == W.Shrink(old(Window(p)), maxLive)
        decreases |live|
      {
        entries := entries - {live[0]};
        live := live[1..];
      }
    }

    method FailPastReads(start: nat, ghost p: nat)
      modifies this`waiting, this`results
      ensures Window(p) == W.FailPast(old(Window(p)), start)
    {
      while waiting != [] && waiting[0].seqnum < start
        invariant W.FailPast(Window(p), start) == W.FailPast(old(Window(p)), start)
        decreases |waiting|
      {
        results := results + [W.ReadResult(waiting[0], W.Failed)];
        waiting := waiting[1..];
      }
    }

    method ServeReads(seqnum: nat, entry: W.LogEntry, ghost p: nat)
      modifies this`waiting, this`results
      ensures Window(p) == W.Serve(old(Window(p)), seqnum, entry)
    {
      while waiting != [] && waiting[0].seqnum == seqnum
        invariant W.Serve(Window(p), seqnum, entry) == W.Serve(old(Window(p)), seqnum, entry)
        decreases |waiting|
      {
        results := results + [W.ReadResult(waiting[0], W.Ok(entry))];
        waiting := waiting[1..];
      }
    }

    method AddEntry(seqnum: nat, entry: W.LogEntry, ghost p: nat)
      modifies this`live, this`entries, this`waiting, this`results
      ensures Window(p) == W.AddEntry(old(Window(p)), maxLive, seqnum, entry)
    {
      live := live + [seqnum];
      entries := entries[seqnum := entry];
      ShrinkLiveEntriesIfNeeded(p);
      ServeReads(seqnum, entry, p);
    }

    ghost function Holding(p: nat): Contents
      reads this
    {
      Contents(pendingEntries.Keys, handed, indexData, Window(p))
    }

    // One entry gets its sequence number.
    method TakeEntry(c: NewLogs, i: nat, ghost data: Data, ghost p: nat) returns (ok: bool)
      requires Holds(data) && i < c.delta
      modifies this`pendingEntries, this`live, this`entries, this`waiting, this`results, this`indexData, this`handed
      ensures Holds(data) && (ok <==> (c.shard, c.startLocal + i) in old(pendingEntries.Keys))
      ensures ok ==> Holding(p) == WithEntry(old(Holding(p)), maxLive, c, data, i)
    {
      var seqnum, id := c.startSeqnum + i, (c.shard, c.startLocal + i);
      if id !in pendingEntries {
        return false;
      }
      var entry := pendingEntries[id];
      assert entry == BatchOf(c, data).entries[i];
      pendingEntries := pendingEntries - {id};
      assert Holds(data);
      handed := handed + [Expand(c)[i]];
      indexData := indexData + [L.IndexEntry(seqnum, c.shard, entry.userLogspace, entry.tags)];
      AddEntry(seqnum, entry, p);
      ok := true;
    }

    /** false is the "Cannot find pending log entry" abort. */
    method OnNewLogs(c: NewLogs, ghost data: Data, ghost p: nat) returns (ok: bool)
      requires Holds(data)
      modifies this`pendingEntries, this`live, this`entries, this`waiting, this`results, this`indexData, this`handed
      ensures Holds(data)
      ensures ok <==> Take(old(pendingEntries.Keys), Expand(c)).Taken?
      ensures ok ==> AfterCall(old(Holding(p)), maxLive, c, data, Holding(p))
    {
      ghost var before := Holding(p);
      FailPastReads(c.startSeqnum, p);
      for i := 0 to c.delta
        invariant Holds(data) && AfterEntries(before, maxLive, c, data, i, Holding(p))
      {
        OneMoreEntry(before, maxLive, c, data, i, Holding(p));
        ok := TakeEntry(c, i, data, p);
        if !ok {
          return;
        }
      }
      AllEntries(before, maxLive, c, data, Holding(p));
      ok := true;
    }

    method OnAllNewLogs(calls: seq<NewLogs>, ghost data: Data, ghost p: nat) returns (ok: bool)
      requires Holds(data)
      modifies this`pendingEntries, this`live, this`entries, this`waiting, this`results, this`indexData, this`handed
      ensures Holds(data)
      ensures ok <==> Take(old(pendingEntries.Keys), Deliveries(calls)).Taken?
      ensures ok ==> AfterCalls(old(Holding(p)), maxLive, calls, data, Holding(p))
    {
      ghost var before := Holding(p);
      for j := 0 to |calls|
        invariant Holds(data) && AfterCalls(before, maxLive, calls[..j], data, Holding(p))
      {
        ghost var mid := Holding(p);
        ok := OnNewLogs(calls[j], data, p);
        if !ok {
          TakeOneMore(before.ids, calls, j);
          MissingInCalls(before.ids, calls, j + 1);
          return;
        }
        OneMoreCall(before, maxLive, calls, data, j, mid, Holding(p));
      }
      assert calls[..|calls|] == calls;
      ok := true;
    }

    /** Receiving a metalog is the cluster model's step at a storage and the window's Apply step;
        false is the abort. */
    method ProvideMetaLog(m: MetaLog, ghost data: Data) returns (ok: bool)
      requires Valid() && WellFormed(m, space.shardProgress.Length) && Holds(data)
      modifies this`pendingEntries, this`live, this`entries, this`waiting, this`results, this`indexData, this`handed
      modifies space, space.shardProgress
      ensures Valid() && Holds(data) && progress == old(progress)
      ensures space.Model() == Provide(old(space.Model()), m).space
      ensures var calls := Provide(old(space.Model()), m).calls;
              var t := Take(old(pendingEntries.Keys), Deliveries(calls));
              && (ok <==> t.Taken?)
              && (ok ==> Model() == D.Storage(Provide(old(space.Model()), m).space, old(progress), t.rest,
                                              old(handed) + Deliveries(calls)))
              && (ok ==> indexData == old(indexData) + IndexOfCalls(calls, data))
              && (ok ==> Window(space.seqnumPosition) == Applied(old(Window(space.seqnumPosition)), maxLive,
                                                                 BatchesOf(calls, data), space.seqnumPosition))
    {
      ghost var before := Window(space.seqnumPosition);
      var _ := space.ProvideMetaLog(m);
      var calls := space.calls;
      space.calls := [];
      assert calls == Provide(old(space.Model()), m).calls;
      ok := OnAllNewLogs(calls, data, space.seqnumPosition);
      if ok {
        ApplyBatchesFrame(before, maxLive, BatchesOf(calls, data), space.seqnumPosition);
      }
    }

    method PollReadResults() returns (rs: seq<W.ReadResult>)
      modifies this`results
      ensures rs == old(results) && results == []
    {
      rs := results;
      results := [];
    }

    method PollIndexData() returns (d: seq<L.IndexEntry>)
      modifies this`indexData
      ensures d == old(indexData) && indexData == []
    {
      d := indexData;
      indexData := [];
    }
  }

  // The position is not part of what handing over entries changes.
  lemma {:induction false} ApplyBatchesFrame(w: W.Window, maxLive: nat, batches: seq<W.Batch>, p: nat)
    ensures W.ApplyBatches(w.(seqnumPosition := p), maxLive, batches)
         == W.ApplyBatches(w, maxLive, batches).(seqnumPosition := p)
  {
    if batches != [] {
      var b := batches[|batches| - 1];
      var front := W.ApplyBatches(w, maxLive, batches[..|batches| - 1]);
      ApplyBatchesFrame(w, maxLive, batches[..|batches| - 1], p);
      FailPastFrame(front, b.start, p);
      AddEntriesFrame(W.FailPast(front, b.start), maxLive, b.start, b.entries, p);
    }
  }

  lemma {:induction false} AddEntriesFrame(w: W.Window, maxLive: nat, start: nat, batch: seq<W.LogEntry>, p: nat)
    ensures W.AddEntries(w.(seqnumPosition := p), maxLive, start, batch)
         == W.AddEntries(w, maxLive, start, batch).(seqnumPosition := p)
  {
    if batch != [] {
      var s, entry := start + |batch| - 1, batch[|batch| - 1];
      AddEntriesFrame(w, maxLive, start, batch[..|batch| - 1], p);
      var front := W.AddLive(W.AddEntries(w, maxLive, start, batch[..|batch| - 1]), s, entry);
      ShrinkFrame(front, maxLive, p);
      ServeFrame(W.Shrink(front, maxLive), s, entry, p);
    }
  }

  lemma {:induction false} FailPastFrame(w: W.Window, start: nat, p: nat)
    ensures W.FailPast(w.(seqnumPosition := p), start) == W.FailPast(w, start).(seqnumPosition := p)
    decreases |w.waiting|
  {
    if w.waiting != [] && w.waiting[0].seqnum < start {
      FailPastFrame(W.Answer(w, w.waiting[0], W.Failed).(waiting := w.waiting[1..]), start, p);
    }
  }

  lemma {:induction false} ShrinkFrame(w: W.Window, maxLive: nat, p: nat)
    ensures W.Shrink(w.(seqnumPosition := p), maxLive) == W.Shrink(w, maxLive).(seqnumPosition := p)
    decreases |w.live|
  {
    if |w.live| > maxLive && w.live[0] < w.persisted {
      ShrinkFrame(w.(live := w.live[1..], entries := w.entries - {w.live[0]}), maxLive, p);
    }
  }

  lemma {:induction false} ServeFrame(w: W.Window, s: nat, entry: W.LogEntry, p: nat)
    ensures W.Serve(w.(seqnumPosition := p), s, entry) == W.Serve(w, s, entry).(seqnumPosition := p)
    decreases |w.waiting|
  {
    if w.waiting != [] && w.waiting[0].seqnum == s {
      ServeFrame(W.Answer(w, w.waiting[0], W.Ok(entry)).(waiting := w.waiting[1..]), s, entry, p);
    }
  }
}
