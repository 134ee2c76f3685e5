/**
 The live window of a log storage and its background flush.

 New entries enter a window in memory.  A background thread grabs the window,
 puts the entries into the database outside the lock and then moves the persisted
 position; entries below it may be dropped from the window.  Reads are served from
 the window, from the database, or wait for their entry.
 */
module StorageWindow {

  datatype LogEntry = LogEntry(userLogspace: nat, tags: seq<nat>, data: string)

  datatype Request = Request(seqnum: nat, id: nat)

  datatype Status = Ok(entry: LogEntry) | LookupDB | Failed

  datatype ReadResult = ReadResult(request: Request, status: Status)

  datatype Window = Window(
    live: seq<nat>,
    entries: map<nat, LogEntry>,
    persisted: nat,
    seqnumPosition: nat,
    waiting: seq<Request>,
    results: seq<ReadResult>)

  // ------------------------------------------------------------------------
  // Operations

  function InsertRequest(waiting: seq<Request>, r: Request): seq<Request> {
    if waiting == [] || waiting[|waiting| - 1].seqnum <= r.seqnum then waiting + [r]
    else InsertRequest(waiting[..|waiting| - 1], r) + [waiting[|waiting| - 1]]
  }

  function Answer(w: Window, r: Request, status: Status): Window {
    w.(results := w.results + [ReadResult(r, status)])
  }

  function ReadAt(w: Window, r: Request): Window {
    if r.seqnum >= w.seqnumPosition then w.(waiting := InsertRequest(w.waiting, r))
    else if r.seqnum in w.entries then Answer(w, r, Ok(w.entries[r.seqnum]))
    else if r.seqnum < w.persisted then Answer(w, r, LookupDB)
    else Answer(w, r, Failed)
  }

  function Shrink(w: Window, maxLive: nat): Window
    decreases |w.live|
  {
    if |w.live| > maxLive && w.live[0] < w.persisted
    then Shrink(w.(live := w.live[1..], entries := w.entries - {w.live[0]}), maxLive)
    else w
  }

  // Reads that wait for something before the new entries are answered with a failure.
  function FailPast(w: Window, start: nat): Window
    decreases |w.waiting|
  {
    if w.waiting != [] && w.waiting[0].seqnum < start
    then FailPast(Answer(w, w.waiting[0], Failed).(waiting := w.waiting[1..]), start)
    else w
  }

  function Serve(w: Window, s: nat, entry: LogEntry): Window
    decreases |w.waiting|
  {
    if w.waiting != [] && w.waiting[0].seqnum == s
    then Serve(Answer(w, w.waiting[0], Ok(entry)).(waiting := w.waiting[1..]), s, entry)
    else w
  }

  function AddLive(w: Window, s: nat, entry: LogEntry): Window {
    w.(live := w.live + [s], entries := w.entries[s := entry])
  }

  function AddEntry(w: Window, maxLive: nat, s: nat, entry: LogEntry): Window {
    Serve(Shrink(AddLive(w, s, entry), maxLive), s, entry)
  }

  function AddEntries(w: Window, maxLive: nat, start: nat, batch: seq<LogEntry>): Window {
    if batch == [] then w
    else AddEntry(AddEntries(w, maxLive, start, batch[..|batch| - 1]), maxLive, start + |batch| - 1, batch[|batch| - 1])
  }

  function OnNewLogs(w: Window, maxLive: nat, start: nat, batch: seq<LogEntry>): Window {
    AddEntries(FailPast(w, start), maxLive, start, batch)
  }

  function LogEntriesPersisted(w: Window, maxLive: nat, position: nat): Window {
    Shrink(w.(persisted := position), maxLive)
  }

  // ------------------------------------------------------------------------
  // What the window must keep, given the entries this storage is to hold

  // `owned` maps the sequence numbers of this storage's shards, present and future, to
  // their entries; everything of it below `p` has been handed to the storage.
  ghost predicate LiveRight(w: Window, owned: map<nat, LogEntry>, p: nat) {
    && Ascending(w.live)
    && LiveHeld(w.live, w.entries, p)
    && EntriesLive(w.entries, w.live)
    && EntriesOwned(w.entries, owned)
    && NoneDropped(w.entries, owned, w.persisted, p)
    && w.persisted <= p
  }

  ghost predicate Ascending(live: seq<nat>) {
    forall i, j :: 0 <= i < j < |live| ==> live[i] < live[j]
  }

  ghost predicate LiveHeld(live: seq<nat>, entries: map<nat, LogEntry>, p: nat) {
    forall j :: 0 <= j < |live| ==> live[j] in entries && live[j] < p
  }

  ghost predicate EntriesLive(entries: map<nat, LogEntry>, live: seq<nat>) {
    forall s :: s in entries ==> s in live
  }

  ghost predicate EntriesOwned(entries: map<nat, LogEntry>, owned: map<nat, LogEntry>) {
    forall s :: s in entries ==> s in owned && entries[s] == owned[s]
  }

  ghost predicate NoneDropped(entries: map<nat, LogEntry>, owned: map<nat, LogEntry>, persisted: nat, p: nat) {
    forall s :: s in owned && persisted <= s < p ==> s in entries
  }

  ghost predicate StoredRight(owned: map<nat, LogEntry>, db: map<nat, LogEntry>, persisted: nat) {
    forall s :: s in owned && s < persisted ==> s in db && db[s] == owned[s]
  }

  ghost predicate WaitingRight(w: Window, owned: map<nat, LogEntry>, p: nat) {
    && SortedRequests(w.waiting)
    && (forall i :: 0 <= i < |w.waiting| && w.waiting[i].seqnum in owned ==> p <= w.waiting[i].seqnum)
  }

  // An answer to a read of an owned entry is that entry, or sends the reader to a database that has it.
  ghost predicate AnswerRight(r: ReadResult, owned: map<nat, LogEntry>, db: map<nat, LogEntry>) {
    r.request.seqnum in owned ==>
      match r.status
      case Ok(entry) => entry == owned[r.request.seqnum]
      case LookupDB => r.request.seqnum in db && db[r.request.seqnum] == owned[r.request.seqnum]
      case Failed => false
  }

  ghost predicate AnswersRight(results: seq<ReadResult>, owned: map<nat, LogEntry>, db: map<nat, LogEntry>) {
    forall j :: 0 <= j < |results| ==> AnswerRight(results[j], owned, db)
  }

  ghost predicate WindowRight(w: Window, db: map<nat, LogEntry>, owned: map<nat, LogEntry>, p: nat) {
    && LiveRight(w, owned, p)
    && StoredRight(owned, db, w.persisted)
    && WaitingRight(w, owned, p)
    && AnswersRight(w.results, owned, db)
  }

  lemma {:induction false} InsertMembers(waiting: seq<Request>, r: Request)
    ensures forall i :: 0 <= i < |InsertRequest(waiting, r)| ==>
              InsertRequest(waiting, r)[i] == r || InsertRequest(waiting, r)[i] in waiting
  {
    if waiting != [] && waiting[|waiting| - 1].seqnum > r.seqnum {
      InsertMembers(waiting[..|waiting| - 1], r);
    }
  }

  ghost predicate SortedRequests(waiting: seq<Request>) {
    forall i, j :: 0 <= i < j < |waiting| ==> waiting[i].seqnum <= waiting[j].seqnum
  }

  lemma {:induction false} InsertSorted(waiting: seq<Request>, r: Request)
    requires SortedRequests(waiting)
    ensures SortedRequests(InsertRequest(waiting, r))
  {
    if waiting != [] && waiting[|waiting| - 1].seqnum > r.seqnum {
      var front, last := waiting[..|waiting| - 1], waiting[|waiting| - 1];
      InsertSorted(front, r);
      InsertMembers(front, r);
      forall i | 0 <= i < |InsertRequest(front, r)|
        ensures InsertRequest(front, r)[i].seqnum <= last.seqnum
      {
        if InsertRequest(front, r)[i] != r {
          var j :| 0 <= j < |front| && front[j] == InsertRequest(front, r)[i];
          assert waiting[j].seqnum <= last.seqnum;
        }
      }
    }
  }

  lemma {:induction false} WaitRight(w: Window, owned: map<nat, LogEntry>, p: nat, r: Request)
    requires WaitingRight(w, owned, p) && p <= r.seqnum
    ensures WaitingRight(w.(waiting := InsertRequest(w.waiting, r)), owned, p)
  {
    InsertSorted(w.waiting, r);
    InsertMembers(w.waiting, r);
  }

  lemma {:induction false} AnswerMore(results: seq<ReadResult>, a: ReadResult, owned: map<nat, LogEntry>,
                                      db: map<nat, LogEntry>)
    requires AnswersRight(results, owned, db) && AnswerRight(a, owned, db)
    ensures AnswersRight(results + [a], owned, db)
  {
  }

  lemma {:induction false} ReadAtRight(w: Window, db: map<nat, LogEntry>, owned: map<nat, LogEntry>, r: Request)
    requires WindowRight(w, db, owned, w.seqnumPosition)
    ensures WindowRight(ReadAt(w, r), db, owned, w.seqnumPosition) && ReadAt(w, r).seqnumPosition == w.seqnumPosition
  {
    var w' := ReadAt(w, r);
    if r.seqnum >= w.seqnumPosition {
      WaitRight(w, owned, w.seqnumPosition, r);
    } else {
      var a := w'.results[|w.results|];
      assert AnswerRight(a, owned, db);
      AnswerMore(w.results, a, owned, db);
      assert w' == w.(results := w.results + [a]);
    }
    assert LiveRight(w', owned, w.seqnumPosition);
  }

  lemma {:induction false} ShrinkRight(w: Window, db: map<nat, LogEntry>, owned: map<nat, LogEntry>, p: nat,
                                       maxLive: nat)
    requires LiveRight(w, owned, p)
    ensures LiveRight(Shrink(w, maxLive), owned, p)
    ensures Shrink(w, maxLive) == w.(live := Shrink(w, maxLive).live, entries := Shrink(w, maxLive).entries)
    decreases |w.live|
  {
    if |w.live| > maxLive && w.live[0] < w.persisted {
      DropRight(w, owned, p);
      ShrinkRight(w.(live := w.live[1..], entries := w.entries - {w.live[0]}), db, owned, p, maxLive);
    }
  }

  // Dropping the oldest entry of the window, which is persisted.
  lemma {:induction false} DropRight(w: Window, owned: map<nat, LogEntry>, p: nat)
    requires LiveRight(w, owned, p) && w.live != [] && w.live[0] < w.persisted
    ensures LiveRight(w.(live := w.live[1..], entries := w.entries - {w.live[0]}), owned, p)
  {
    DropHeld(w.live, w.entries, p);
    DropLive(w.live, w.entries);
  }

  lemma {:induction false} DropHeld(live: seq<nat>, entries: map<nat, LogEntry>, p: nat)
    requires live != [] && Ascending(live) && LiveHeld(live, entries, p)
    ensures Ascending(live[1..]) && LiveHeld(live[1..], entries - {live[0]}, p)
  {
  }

  lemma {:induction false} DropLive(live: seq<nat>, entries: map<nat, LogEntry>)
    requires live != [] && EntriesLive(entries, live)
    ensures EntriesLive(entries - {live[0]}, live[1..])
  {
    forall s | s in entries - {live[0]}
      ensures s in live[1..]
    {
      var j :| 0 <= j < |live| && live[j] == s;
      assert live[1..][j - 1] == s;
    }
  }

  lemma {:induction false} FailPastRight(w: Window, db: map<nat, LogEntry>, owned: map<nat, LogEntry>, p: nat,
                                         start: nat)
    requires WaitingRight(w, owned, p) && AnswersRight(w.results, owned, db)
    requires p <= start && forall s :: s in owned ==> !(p <= s < start)
    ensures WaitingRight(FailPast(w, start), owned, start) && AnswersRight(FailPast(w, start).results, owned, db)
    ensures FailPast(w, start) == w.(waiting := FailPast(w, start).waiting, results := FailPast(w, start).results)
    decreases |w.waiting|
  {
    if w.waiting != [] && w.waiting[0].seqnum < start {
      FailPastRight(Answer(w, w.waiting[0], Failed).(waiting := w.waiting[1..]), db, owned, p, start);
    }
  }

  lemma {:induction false} ServeRight(w: Window, db: map<nat, LogEntry>, owned: map<nat, LogEntry>, s: nat,
                                      entry: LogEntry)
    requires WaitingRight(w, owned, s) && AnswersRight(w.results, owned, db) && s in owned && owned[s] == entry
    requires forall i :: 0 <= i < |w.waiting| ==> s <= w.waiting[i].seqnum
    ensures var w' := Serve(w, s, entry);
            && WaitingRight(w', owned, s + 1) && AnswersRight(w'.results, owned, db)
            && (forall i :: 0 <= i < |w'.waiting| ==> s + 1 <= w'.waiting[i].seqnum)
            && w' == w.(waiting := w'.waiting, results := w'.results)
    decreases |w.waiting|
  {
    if w.waiting != [] && w.waiting[0].seqnum == s {
      ServeRight(Answer(w, w.waiting[0], Ok(entry)).(waiting := w.waiting[1..]), db, owned, s, entry);
    }
  }

  ghost predicate NoneBefore(w: Window, s: nat) {
    forall i :: 0 <= i < |w.waiting| ==> s <= w.waiting[i].seqnum
  }

  lemma {:induction false} FailPastNoneBefore(w: Window, start: nat)
    requires SortedRequests(w.waiting)
    ensures NoneBefore(FailPast(w, start), start)
    decreases |w.waiting|
  {
    if w.waiting != [] && w.waiting[0].seqnum < start {
      FailPastNoneBefore(Answer(w, w.waiting[0], Failed).(waiting := w.waiting[1..]), start);
    }
  }

  lemma {:induction false} AddLiveRight(w: Window, owned: map<nat, LogEntry>, s: nat)
    requires LiveRight(w, owned, s) && s in owned
    ensures LiveRight(AddLive(w, s, owned[s]), owned, s + 1)
  {
    AddHeld(w.live, w.entries, s, owned[s]);
    AddToLive(w.live, w.entries, s, owned[s]);
  }

  lemma {:induction false} AddHeld(live: seq<nat>, entries: map<nat, LogEntry>, s: nat, entry: LogEntry)
    requires Ascending(live) && LiveHeld(live, entries, s)
    ensures Ascending(live + [s]) && LiveHeld(live + [s], entries[s := entry], s + 1)
  {
  }

  lemma {:induction false} AddToLive(live: seq<nat>, entries: map<nat, LogEntry>, s: nat, entry: LogEntry)
    requires EntriesLive(entries, live)
    ensures EntriesLive(entries[s := entry], live + [s])
  {
  }

  // A later window, right up to p.
  ghost predicate StillRight(w: Window, w': Window, db: map<nat, LogEntry>, owned: map<nat, LogEntry>, p: nat) {
    && WindowRight(w', db, owned, p) && NoneBefore(w', p)
    && w'.persisted == w.persisted && w'.seqnumPosition == w.seqnumPosition
  }

  lemma {:induction false} AddEntryRight(w: Window, db: map<nat, LogEntry>, owned: map<nat, LogEntry>, maxLive: nat,
                                         s: nat)
    requires WindowRight(w, db, owned, s) && s in owned && NoneBefore(w, s)
    ensures StillRight(w, AddEntry(w, maxLive, s, owned[s]), db, owned, s + 1)
  {
    var added := AddLive(w, s, owned[s]);
    AddLiveRight(w, owned, s);
    ShrinkRight(added, db, owned, s + 1, maxLive);
    ServeRight(Shrink(added, maxLive), db, owned, s, owned[s]);
  }

  ghost predicate Owns(owned: map<nat, LogEntry>, s: nat, entry: LogEntry) {
    s in owned && owned[s] == entry
  }

  ghost predicate IsBatch(owned: map<nat, LogEntry>, start: nat, batch: seq<LogEntry>) {
    forall j :: 0 <= j < |batch| ==> Owns(owned, start + j, batch[j])
  }

  lemma {:induction false} BatchPrefix(owned: map<nat, LogEntry>, start: nat, batch: seq<LogEntry>, i: nat)
    requires IsBatch(owned, start, batch) && i <= |batch|
    ensures IsBatch(owned, start, batch[..i])
    ensures i < |batch| ==> Owns(owned, start + i, batch[i])
  {
  }

  lemma {:induction false} AddEntriesRight(w: Window, db: map<nat, LogEntry>, owned: map<nat, LogEntry>,
                                           maxLive: nat, start: nat, batch: seq<LogEntry>)
    requires WindowRight(w, db, owned, start) && IsBatch(owned, start, batch) && NoneBefore(w, start)
    ensures StillRight(w, AddEntries(w, maxLive, start, batch), db, owned, start + |batch|)
  {
    if batch != [] {
      var front, s := batch[..|batch| - 1], start + |batch| - 1;
      var w1, w2 := AddEntries(w, maxLive, start, front), AddEntries(w, maxLive, start, batch);
      assert w2 == AddEntry(w1, maxLive, s, batch[|front|]);
      BatchPrefix(owned, start, batch, |front|);
      AddEntriesRight(w, db, owned, maxLive, start, front);
      OneMoreRight(w, w1, w2, db, owned, maxLive, s, batch[|front|]);
    }
  }

  lemma {:induction false} OneMoreRight(w: Window, w1: Window, w2: Window, db: map<nat, LogEntry>,
                                        owned: map<nat, LogEntry>,
                                        maxLive: nat, s: nat, entry: LogEntry)
    requires StillRight(w, w1, db, owned, s) && Owns(owned, s, entry) && w2 == AddEntry(w1, maxLive, s, entry)
    ensures StillRight(w, w2, db, owned, s + 1)
  {
    AddEntryRight(w1, db, owned, maxLive, s);
  }

  lemma {:induction false} OnNewLogsRight(w: Window, db: map<nat, LogEntry>, owned: map<nat, LogEntry>,
                                          p: nat, maxLive: nat, start: nat, batch: seq<LogEntry>)
    requires WindowRight(w, db, owned, p) && IsBatch(owned, start, batch)
    requires p <= start && forall s :: s in owned ==> !(p <= s < start)
    ensures var w' := OnNewLogs(w, maxLive, start, batch);
            && WindowRight(w', db, owned, start + |batch|)
            && w'.persisted == w.persisted && w'.seqnumPosition == w.seqnumPosition
  {
    FailPastRight(w, db, owned, p, start);
    FailPastNoneBefore(w, start);
    AddEntriesRight(FailPast(w, start), db, owned, maxLive, start, batch);
  }

  // ------------------------------------------------------------------------
  // The batches a metalog hands over

  datatype Batch = Batch(start: nat, entries: seq<LogEntry>)

  ghost predicate NoneOwned(owned: map<nat, LogEntry>, lo: nat, hi: nat) {
    forall s :: s in owned ==> !(lo <= s < hi)
  }

  // The batches are, in order, exactly what is owned between two sequence numbers.
  ghost predicate Batches(owned: map<nat, LogEntry>, lo: nat, batches: seq<Batch>, hi: nat) {
    if batches == [] then lo <= hi && NoneOwned(owned, lo, hi)
    else
      var b := batches[|batches| - 1];
      && b.start + |b.entries| <= hi && NoneOwned(owned, b.start + |b.entries|, hi)
      && IsBatch(owned, b.start, b.entries)
      && Batches(owned, lo, batches[..|batches| - 1], b.start)
  }

  function ApplyBatches(w: Window, maxLive: nat, batches: seq<Batch>): Window {
    if batches == [] then w
    else
      var b := batches[|batches| - 1];
      OnNewLogs(ApplyBatches(w, maxLive, batches[..|batches| - 1]), maxLive, b.start, b.entries)
  }

  lemma {:induction false} RightMoves(w: Window, db: map<nat, LogEntry>, owned: map<nat, LogEntry>, q: nat, p: nat)
    requires WindowRight(w, db, owned, q) && q <= p && NoneOwned(owned, q, p)
    ensures WindowRight(w, db, owned, p)
  {
  }

  lemma {:induction false} ApplyBatchesRight(w: Window, db: map<nat, LogEntry>, owned: map<nat, LogEntry>, maxLive: nat,
                                             lo: nat, batches: seq<Batch>, hi: nat)
    requires WindowRight(w, db, owned, lo) && Batches(owned, lo, batches, hi)
    ensures var w' := ApplyBatches(w, maxLive, batches);
            WindowRight(w', db, owned, hi) && w'.persisted == w.persisted && w'.seqnumPosition == w.seqnumPosition
  {
    if batches == [] {
      RightMoves(w, db, owned, lo, hi);
    } else {
      var front, b := batches[..|batches| - 1], batches[|batches| - 1];
      ApplyBatchesRight(w, db, owned, maxLive, lo, front, b.start);
      OnNewLogsRight(ApplyBatches(w, maxLive, front), db, owned, b.start, maxLive, b.start, b.entries);
      RightMoves(ApplyBatches(w, maxLive, batches), db, owned, b.start + |b.entries|, hi);
    }
  }

  // ------------------------------------------------------------------------
  // The two threads

  // What the background thread has grabbed and how much of it is in the database.
  datatype Flush = Idle | Flushing(batch: seq<nat>, entries: seq<LogEntry>, done: nat, position: nat)

  datatype Node = Node(window: Window, db: map<nat, LogEntry>, flush: Flush)

  // absl::c_lower_bound on the live window
  function LowerBound(live: seq<nat>, x: nat): (i: nat)
    ensures i <= |live|
  {
    if live == [] || live[|live| - 1] < x then |live| else LowerBound(live[..|live| - 1], x)
  }

  lemma {:induction false} LowerBoundFacts(live: seq<nat>, x: nat)
    requires Ascending(live)
    ensures forall j :: 0 <= j < |live| ==> (live[j] < x <==> j < LowerBound(live, x))
  {
    if live != [] && live[|live| - 1] >= x {
      LowerBoundFacts(live[..|live| - 1], x);
    }
  }

  function Grabbed(w: Window): seq<nat> {
    w.live[LowerBound(w.live, w.persisted)..]
  }

  predicate CanGrab(w: Window) {
    w.live != [] && w.live[|w.live| - 1] >= w.persisted
  }

  function EntriesOf(w: Window, batch: seq<nat>): seq<LogEntry>
    requires forall j :: 0 <= j < |batch| ==> batch[j] in w.entries
  {
    seq(|batch|, j requires 0 <= j < |batch| => w.entries[batch[j]])
  }

  datatype Step =
    | Read(request: Request)
    | Apply(batches: seq<Batch>, position: nat)
    | Grab
    | Put
    | Persisted

  ghost predicate NextStep(owned: map<nat, LogEntry>, maxLive: nat, n: Node, n': Node, step: Step) {
    match step
    case Read(r) => n' == n.(window := ReadAt(n.window, r))
    case Apply(batches, position) =>
      && Batches(owned, n.window.seqnumPosition, batches, position)
      && n' == n.(window := ApplyBatches(n.window, maxLive, batches).(seqnumPosition := position))
    case Grab =>
      && n.flush.Idle? && CanGrab(n.window)
      && var batch := Grabbed(n.window);
         && (forall j :: 0 <= j < |batch| ==> batch[j] in n.window.entries)
         && n' == n.(flush := Flushing(batch, EntriesOf(n.window, batch), 0, n.window.live[|n.window.live| - 1] + 1))
    case Put =>
      && n.flush.Flushing? && n.flush.done < |n.flush.batch| == |n.flush.entries|
      && n' == n.(db := n.db[n.flush.batch[n.flush.done] := n.flush.entries[n.flush.done]],
                  flush := n.flush.(done := n.flush.done + 1))
    case Persisted =>
      && n.flush.Flushing? && n.flush.done == |n.flush.batch|
      && n' == n.(window := LogEntriesPersisted(n.window, maxLive, n.flush.position), flush := Idle)
  }

  ghost predicate Next(owned: map<nat, LogEntry>, maxLive: nat, n: Node, n': Node) {
    exists step :: NextStep(owned, maxLive, n, n', step)
  }

  ghost predicate IsRun(owned: map<nat, LogEntry>, maxLive: nat, run: seq<Node>) {
    && run != []
    && if |run| == 1 then run[0] == Node(Window([], map[], 0, 0, [], []), map[], Idle)
       else IsRun(owned, maxLive, run[..|run| - 1]) && Next(owned, maxLive, run[|run| - 2], run[|run| - 1])
  }

  ghost predicate FlushRight(f: Flush, persisted: nat, p: nat, db: map<nat, LogEntry>, owned: map<nat, LogEntry>) {
    f.Flushing? ==>
      && persisted <= f.position <= p && |f.entries| == |f.batch| && f.done <= |f.batch|
      && BatchOwned(f.batch, f.entries, owned)
      && BatchAll(f.batch, owned, persisted, f.position)
      && BatchStored(f.batch, f.done, db, owned)
  }

  ghost predicate BatchOwned(batch: seq<nat>, entries: seq<LogEntry>, owned: map<nat, LogEntry>)
    requires |entries| == |batch|
  {
    forall j :: 0 <= j < |batch| ==> Owns(owned, batch[j], entries[j])
  }

  ghost predicate BatchAll(batch: seq<nat>, owned: map<nat, LogEntry>, persisted: nat, position: nat) {
    forall s :: s in owned && persisted <= s < position ==> s in batch
  }

  ghost predicate BatchStored(batch: seq<nat>, done: nat, db: map<nat, LogEntry>, owned: map<nat, LogEntry>)
    requires done <= |batch|
  {
    forall j :: 0 <= j < done ==> batch[j] in owned && Owns(db, batch[j], owned[batch[j]])
  }

  ghost predicate Inv(owned: map<nat, LogEntry>, n: Node) {
    && WindowRight(n.window, n.db, owned, n.window.seqnumPosition)
    && FlushRight(n.flush, n.window.persisted, n.window.seqnumPosition, n.db, owned)
  }

  lemma {:induction false} GrabbedRight(w: Window, owned: map<nat, LogEntry>, p: nat)
    requires LiveRight(w, owned, p)
    ensures var batch := Grabbed(w);
            forall j :: 0 <= j < |batch| ==>
              batch[j] in w.entries && batch[j] in owned && w.entries[batch[j]] == owned[batch[j]]
  {
    var batch, b := Grabbed(w), LowerBound(w.live, w.persisted);
    forall j | 0 <= j < |batch|
      ensures batch[j] in w.entries && batch[j] in owned && w.entries[batch[j]] == owned[batch[j]]
    {
      assert batch[j] == w.live[b + j];
    }
  }

  // The grabbed entries are everything owned from the persisted position to the end of the window.
  lemma {:induction false} GrabbedAll(w: Window, owned: map<nat, LogEntry>, p: nat, s: nat)
    requires LiveRight(w, owned, p) && CanGrab(w) && s in owned && w.persisted <= s <= w.live[|w.live| - 1]
    ensures s in Grabbed(w)
  {
    var batch, b := Grabbed(w), LowerBound(w.live, w.persisted);
    assert s in w.entries;
    var j :| 0 <= j < |w.live| && w.live[j] == s;
    LowerBoundFacts(w.live, w.persisted);
    assert batch[j - b] == s;
  }

  lemma {:induction false} GrabInv(owned: map<nat, LogEntry>, maxLive: nat, n: Node, n': Node)
    requires Inv(owned, n) && NextStep(owned, maxLive, n, n', Grab)
    ensures Inv(owned, n')
  {
    GrabbedFlush(n.window, owned, n.window.seqnumPosition, n'.flush, n.db);
  }

  lemma {:induction false} GrabbedFlush(w: Window, owned: map<nat, LogEntry>, p: nat, f: Flush, db: map<nat, LogEntry>)
    requires LiveRight(w, owned, p) && CanGrab(w)
    requires forall j :: 0 <= j < |Grabbed(w)| ==> Grabbed(w)[j] in w.entries
    requires f == Flushing(Grabbed(w), EntriesOf(w, Grabbed(w)), 0, w.live[|w.live| - 1] + 1)
    ensures FlushRight(f, w.persisted, p, db, owned)
  {
    GrabbedRight(w, owned, p);
    forall s | s in owned && w.persisted <= s < f.position
      ensures s in f.batch
    {
      GrabbedAll(w, owned, p, s);
    }
  }

  lemma {:induction false} PutInv(owned: map<nat, LogEntry>, maxLive: nat, n: Node, n': Node)
    requires Inv(owned, n) && NextStep(owned, maxLive, n, n', Put)
    ensures Inv(owned, n')
  {
    PutFlush(n.flush, n.window.persisted, n.window.seqnumPosition, n.db, owned);
    PutStored(owned, n.db, n.window, n.flush.batch[n.flush.done], n.flush.entries[n.flush.done]);
  }

  lemma {:induction false} PutFlush(f: Flush, persisted: nat, p: nat, db: map<nat, LogEntry>, owned: map<nat, LogEntry>)
    requires f.Flushing? && FlushRight(f, persisted, p, db, owned) && f.done < |f.batch|
    ensures FlushRight(f.(done := f.done + 1), persisted, p, db[f.batch[f.done] := f.entries[f.done]], owned)
    ensures Owns(owned, f.batch[f.done], f.entries[f.done])
  {
  }

  // Storing an owned entry in the database spoils nothing.
  lemma {:induction false} PutStored(owned: map<nat, LogEntry>, db: map<nat, LogEntry>, w: Window, s: nat, entry: LogEntry)
    requires Owns(owned, s, entry) && StoredRight(owned, db, w.persisted) && AnswersRight(w.results, owned, db)
    ensures StoredRight(owned, db[s := entry], w.persisted) && AnswersRight(w.results, owned, db[s := entry])
  {
    forall j | 0 <= j < |w.results|
      ensures AnswerRight(w.results[j], owned, db[s := entry])
    {
      assert AnswerRight(w.results[j], owned, db);
    }
  }

  lemma {:induction false} PersistedInv(owned: map<nat, LogEntry>, maxLive: nat, n: Node, n': Node)
    requires Inv(owned, n) && NextStep(owned, maxLive, n, n', Persisted)
    ensures Inv(owned, n')
  {
    var moved := n.window.(persisted := n.flush.position);
    forall s | s in owned && s < n.flush.position
      ensures s in n.db && n.db[s] == owned[s]
    {
      if s >= n.window.persisted {
        var j :| 0 <= j < |n.flush.batch| && n.flush.batch[j] == s;
      }
    }
    ShrinkRight(moved, n.db, owned, moved.seqnumPosition, maxLive);
  }

  lemma {:induction false} StepInv(owned: map<nat, LogEntry>, maxLive: nat, n: Node, n': Node, step: Step)
    requires Inv(owned, n) && NextStep(owned, maxLive, n, n', step)
    ensures Inv(owned, n')
  {
    match step
    case Read(r) => ReadAtRight(n.window, n.db, owned, r);
    case Apply(batches, position) =>
      BatchesOrdered(owned, n.window.seqnumPosition, batches, position);
      ApplyBatchesRight(n.window, n.db, owned, maxLive, n.window.seqnumPosition, batches, position);
    case Grab => GrabInv(owned, maxLive, n, n');
    case Put => PutInv(owned, maxLive, n, n');
    case Persisted => PersistedInv(owned, maxLive, n, n');
  }

  lemma {:induction false} BatchesOrdered(owned: map<nat, LogEntry>, lo: nat, batches: seq<Batch>, hi: nat)
    requires Batches(owned, lo, batches, hi)
    ensures lo <= hi
  {
    if batches != [] {
      BatchesOrdered(owned, lo, batches[..|batches| - 1], batches[|batches| - 1].start);
    }
  }

  lemma {:induction false} RunInv(owned: map<nat, LogEntry>, maxLive: nat, run: seq<Node>)
    requires IsRun(owned, maxLive, run)
    ensures Inv(owned, run[|run| - 1])
  {
    if |run| > 1 {
      RunInv(owned, maxLive, run[..|run| - 1]);
      var step :| NextStep(owned, maxLive, run[|run| - 2], run[|run| - 1], step);
      StepInv(owned, maxLive, run[|run| - 2], run[|run| - 1], step);
    }
  }

  /** Reads are never lost: in every state of every interleaving, every entry handed to the storage is
      in the live window or in the database below the persisted position, no read of an entry of this
      storage has been answered with a failure or a wrong entry, and none still waits for an entry
      that has arrived. */
  lemma {:induction false} ReadsNeverLost(owned: map<nat, LogEntry>, maxLive: nat, run: seq<Node>)
    requires IsRun(owned, maxLive, run)
    ensures var n := run[|run| - 1];
            && (forall s :: s in owned && s < n.window.seqnumPosition ==>
                  || (s in n.window.entries && n.window.entries[s] == owned[s])
                  || (s < n.window.persisted && s in n.db && n.db[s] == owned[s]))
            && (forall j :: 0 <= j < |n.window.results| && n.window.results[j].request.seqnum in owned ==>
                  && !n.window.results[j].status.Failed?
                  && AnswerRight(n.window.results[j], owned, n.db))
            && (forall i :: 0 <= i < |n.window.waiting| && n.window.waiting[i].seqnum in owned ==>
                  n.window.waiting[i].seqnum >= n.window.seqnumPosition)
  {
    RunInv(owned, maxLive, run);
    var n := run[|run| - 1];
    forall j | 0 <= j < |n.window.results| && n.window.results[j].request.seqnum in owned
      ensures !n.window.results[j].status.Failed? && AnswerRight(n.window.results[j], owned, n.db)
    {
      assert AnswerRight(n.window.results[j], owned, n.db);
    }
  }

  // ------------------------------------------------------------------------
  // Every read is answered or waits, once

  ghost function Answered(results: seq<ReadResult>): multiset<Request> {
    if results == [] then multiset{}
    else Answered(results[..|results| - 1]) + multiset{results[|results| - 1].request}
  }

  // The reads that the storage has been asked for: those that wait and those that were answered.
  ghost function Reads(w: Window): multiset<Request> {
    multiset(w.waiting) + Answered(w.results)
  }

  lemma {:induction false} AnswerReads(w: Window, r: Request, status: Status)
    ensures Reads(Answer(w, r, status)) == Reads(w) + multiset{r}
  {
    assert Answer(w, r, status).results[..|w.results|] == w.results;
  }

  // Answering the first waiting read.
  lemma {:induction false} FirstAnswered(w: Window, status: Status)
    requires w.waiting != []
    ensures Reads(Answer(w, w.waiting[0], status).(waiting := w.waiting[1..])) == Reads(w)
  {
    AnswerReads(w, w.waiting[0], status);
    assert w.waiting == [w.waiting[0]] + w.waiting[1..];
  }

  /** A read goes behind those for no later sequence number, so reads of one entry keep their order. */
  lemma {:induction false} InsertPlace(waiting: seq<Request>, r: Request) returns (i: nat)
    ensures i <= |waiting| && InsertRequest(waiting, r) == waiting[..i] + [r] + waiting[i..]
    ensures (i > 0 ==> waiting[i - 1].seqnum <= r.seqnum) && forall j :: i <= j < |waiting| ==> waiting[j].seqnum > r.seqnum
  {
    if waiting == [] || waiting[|waiting| - 1].seqnum <= r.seqnum {
      i := |waiting|;
    } else {
      var front := waiting[..|waiting| - 1];
      i := InsertPlace(front, r);
      assert waiting[i..] == front[i..] + [waiting[|waiting| - 1]];
    }
  }

  lemma {:induction false} InsertReads(waiting: seq<Request>, r: Request)
    ensures multiset(InsertRequest(waiting, r)) == multiset(waiting) + multiset{r}
  {
    var i := InsertPlace(waiting, r);
    assert waiting == waiting[..i] + waiting[i..];
  }

  lemma {:induction false} ShrinkOnlyLive(w: Window, maxLive: nat)
    ensures Shrink(w, maxLive) == w.(live := Shrink(w, maxLive).live, entries := Shrink(w, maxLive).entries)
    decreases |w.live|
  {
    if |w.live| > maxLive && w.live[0] < w.persisted {
      ShrinkOnlyLive(w.(live := w.live[1..], entries := w.entries - {w.live[0]}), maxLive);
    }
  }

  lemma {:induction false} FailPastReads(w: Window, start: nat)
    ensures Reads(FailPast(w, start)) == Reads(w)
    decreases |w.waiting|
  {
    if w.waiting != [] && w.waiting[0].seqnum < start {
      FirstAnswered(w, Failed);
      FailPastReads(Answer(w, w.waiting[0], Failed).(waiting := w.waiting[1..]), start);
    }
  }

  lemma {:induction false} ServeReads(w: Window, s: nat, entry: LogEntry)
    ensures Reads(Serve(w, s, entry)) == Reads(w)
    decreases |w.waiting|
  {
    if w.waiting != [] && w.waiting[0].seqnum == s {
      FirstAnswered(w, Ok(entry));
      ServeReads(Answer(w, w.waiting[0], Ok(entry)).(waiting := w.waiting[1..]), s, entry);
    }
  }

  lemma {:induction false} AddEntriesReads(w: Window, maxLive: nat, start: nat, batch: seq<LogEntry>)
    ensures Reads(AddEntries(w, maxLive, start, batch)) == Reads(w)
  {
    if batch != [] {
      var front, s, entry := batch[..|batch| - 1], start + |batch| - 1, batch[|batch| - 1];
      AddEntriesReads(w, maxLive, start, front);
      var added := AddLive(AddEntries(w, maxLive, start, front), s, entry);
      ShrinkOnlyLive(added, maxLive);
      ServeReads(Shrink(added, maxLive), s, entry);
    }
  }

  lemma {:induction false} ApplyBatchesReads(w: Window, maxLive: nat, batches: seq<Batch>)
    ensures Reads(ApplyBatches(w, maxLive, batches)) == Reads(w)
  {
    if batches != [] {
      var front, b := batches[..|batches| - 1], batches[|batches| - 1];
      ApplyBatchesReads(w, maxLive, front);
      FailPastReads(ApplyBatches(w, maxLive, front), b.start);
      AddEntriesReads(FailPast(ApplyBatches(w, maxLive, front), b.start), maxLive, b.start, b.entries);
    }
  }

  /** No step of either thread loses, repeats or makes up a read: the reads that wait and those that were
      answered are together the ones before, and after a read that one more. */
  lemma {:induction false} StepReads(owned: map<nat, LogEntry>, maxLive: nat, n: Node, n': Node, step: Step)
    requires NextStep(owned, maxLive, n, n', step)
    ensures Reads(n'.window) == Reads(n.window) + if step.Read? then multiset{step.request} else multiset{}
  {
    match step
    case Read(r) => ReadAtReads(n.window, r);
    case Apply(batches, position) => ApplyBatchesReads(n.window, maxLive, batches);
    case Persisted => ShrinkOnlyLive(n.window.(persisted := n.flush.position), maxLive);
    case _ =>
  }

  /** A read waits exactly for what is still to come, and is answered from memory whenever its entry is there. */
  lemma {:induction false} ReadAtReads(w: Window, r: Request)
    ensures Reads(ReadAt(w, r)) == Reads(w) + multiset{r}
    ensures ReadAt(w, r).results == w.results <==> r.seqnum >= w.seqnumPosition
    ensures r.seqnum < w.seqnumPosition && r.seqnum in w.entries ==>
              ReadAt(w, r).results == w.results + [ReadResult(r, Ok(w.entries[r.seqnum]))]
  {
    if r.seqnum >= w.seqnumPosition {
      InsertReads(w.waiting, r);
    } else {
      AnswerReads(w, r, ReadAt(w, r).results[|w.results|].status);
    }
  }

  /** The window is kept small: shrinking drops the oldest k entries, so that at most `maxLive` entries are left
      or none that is persisted, and none without need. */
  lemma {:induction false} ShrinksEnough(w: Window, maxLive: nat) returns (k: nat)
    ensures k <= |w.live| && Shrink(w, maxLive).live == w.live[k..]
    ensures |w.live| - k <= maxLive || w.live[k] >= w.persisted
    ensures k > 0 ==> |w.live| - k >= maxLive && w.live[k - 1] < w.persisted
    decreases |w.live|
  {
    if |w.live| > maxLive && w.live[0] < w.persisted {
      var rest := w.(live := w.live[1..], entries := w.entries - {w.live[0]});
      var j := ShrinksEnough(rest, maxLive);
      assert w.live[1..][j..] == w.live[j + 1..];
      k := j + 1;
    } else {
      k := 0;
    }
  }
}
