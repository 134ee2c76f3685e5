/** What a sequence of reads and appends of one caller sees. */
module Sessions {
  import opened Options
  import opened MetaLogs
  import opened Lookup
  import opened Queries
  import opened Indexing

  // More of the log means more of every user log space, in the same order.
  lemma {:induction false} ForUserPrefix(truth: seq<IndexEntry>, u: nat, x: nat, y: nat)
    requires x <= y <= |truth|
    ensures ForUser(truth[..x], u) <= ForUser(truth[..y], u)
    decreases y
  {
    if x < y {
      assert truth[..y][..y - 1] == truth[..y - 1];
      ForUserPrefix(truth, u, x, y - 1);
    }
  }

  lemma {:induction false} ForUserHas(truth: seq<IndexEntry>, u: nat, x: nat, s: nat) returns (i: nat)
    requires s < x <= |truth| && truth[s].userLogspace == u
    ensures i < |ForUser(truth[..x], u)| && ForUser(truth[..x], u)[i] == truth[s]
  {
    var one := truth[..s + 1];
    assert one[..s] == truth[..s];
    i := |ForUser(truth[..s], u)|;
    assert ForUser(one, u)[i] == truth[s];
    ForUserPrefix(truth, u, s + 1, x);
  }

  /** The progress of an answer is at least what the caller had seen if and only if the answer is from
      all of that: so the caller can tell, and one that keeps the largest progress never goes back. */
  lemma {:induction false} ProgressGrows(space: nat, truth: seq<IndexEntry>, log: seq<MetaLog>, r: Result, p: nat,
                                         query: Query, found: Option<Found>)
    requires AnswersAt(space, truth, log, r, p, query, found) && query.initial
    requires ViewId(query.progress) < SpaceView(space) || query.progress / TWO32 == space
    ensures r.progress == JoinTwo32(space, p) && (query.progress <= r.progress <==> Reached(space, query, p))
  {
    if query.progress / TWO32 == space {
      assert query.progress == JoinTwo32(space, query.progress % TWO32);
    } else {
      assert query.progress < (ViewId(query.progress) + 1) * TWO48 <= SpaceView(space) * TWO48;
      assert SpaceView(space) * TWO16 <= space;
    }
  }

  // An entry of cut k lies below every later end of a cut.
  lemma {:induction false} CutBelow(log: seq<MetaLog>, n: nat, k: nat, i: nat, l: nat, p: nat)
    requires Chain(log, n) && k < p <= |log| && i < n && Covers(log[k], i, l)
    ensures SeqnumIn(log[k], i, l) < Total(log, p)
  {
    SeqnumInRange(log, n, k, i, l);
    SumsMonotone(log, k + 1, p);
  }

  // What a result carries: its answer, or the best found so far in newer views.
  function Carried(r: Result): Option<Found> {
    match r
    case FoundResult(_, _, found) => Some(found)
    case EmptyResult(_, _) => None
    case ContinueResult(_, _, _, soFar) => soFar
  }

  // A result, from these entries, that has not missed the entry s: ReadPrev at or past it finds it or
  // something newer, and nothing past the query but for the family that FindPrev gets wrong; ReadNext,
  // blocking or not, from it or before it finds it or something older.
  ghost predicate Sees(space: nat, entries: seq<IndexEntry>, query: Query, r: Result, s: nat) {
    && (query.direction.ReadPrev? && s <= query.seqnum ==>
          && r.FoundResult? && s <= r.found.seqnum
          && (r.found.seqnum <= query.seqnum <==> !TailWraps(space, entries, query.seqnum, query.tag)))
    && (!query.direction.ReadPrev? && query.seqnum <= s ==>
          && Carried(r).Some? && query.seqnum <= Carried(r).value.seqnum <= s
          && (ViewId(query.seqnum) == ViewId(s) ==> r.FoundResult?))
  }

  // The entries of a user log space up to metalog position p.
  ghost function Mine(truth: seq<IndexEntry>, log: seq<MetaLog>, p: nat, u: nat): seq<IndexEntry>
    requires p <= |log| && Total(log, p) <= |truth|
  {
    ForUser(truth[..Total(log, p)], u)
  }

  /** A caller sees its own appends: an append that was sequenced in metalog k hands its caller the
      progress k + 1.  A later read with at least that progress, for a matching tag, that is answered
      from all of it has not missed the entry. */
  lemma {:induction false} OwnAppendSeen(space: nat, truth: seq<IndexEntry>, log: seq<MetaLog>, n: nat,
                                         k: nat, i: nat, l: nat, r: Result, p: nat, query: Query, found: Option<Found>)
    requires Chain(log, n) && k < |log| && i < n && Covers(log[k], i, l) && InOrder(truth)
    requires AnswersAt(space, truth, log, r, p, query, found) && query.initial && query.prev.None?
    requires query.progress / TWO32 == space && query.progress % TWO32 >= k + 1
    requires SeqnumIn(log[k], i, l) < |truth| && Matches(truth[SeqnumIn(log[k], i, l)], query.tag)
    requires truth[SeqnumIn(log[k], i, l)].userLogspace == query.userLogspace
    ensures Reached(space, query, p) ==>
              Sees(space, Mine(truth, log, p, query.userLogspace), query, r, JoinTwo32(space, SeqnumIn(log[k], i, l)))
  {
    if Reached(space, query, p) {
      assert ViewId(query.progress) == SpaceView(space);
      CutBelow(log, n, k, i, l, p);
      var s := SeqnumIn(log[k], i, l);
      var j := ForUserHas(truth, query.userLogspace, Total(log, p), s);
      EntrySeen(space, Mine(truth, log, p, query.userLogspace), query, r, JoinTwo32(space, p), found, j);
    }
  }

  // An answer from entries among which one matches.
  lemma {:induction false} EntrySeen(space: nat, entries: seq<IndexEntry>, query: Query, r: Result, now: nat,
                                     found: Option<Found>, j: nat)
    requires j < |entries| && Matches(entries[j], query.tag) && entries[j].seqnum < TWO32 && query.prev.None?
    requires if query.direction.ReadPrev? then FoundPrev(space, entries, query.seqnum, query.tag, found)
             else NextRight(space, entries, query.seqnum, query.tag, found)
    requires || ProcessQuery(SpaceView(space), now, query, found) == Some(r)
             || (found == None && Blockable(space, query) && r == EmptyResult(ProgressOf(query, now), query))
    ensures Sees(space, entries, query, r, JoinTwo32(space, entries[j].seqnum))
  {
    var s := JoinTwo32(space, entries[j].seqnum);
    SpaceOfSeqnum(space, entries[j].seqnum);
    if query.seqnum <= s {
      ViewMonotone(query.seqnum, s);
    } else {
      ViewMonotone(s, query.seqnum);
    }
    if query.direction.ReadPrev? && s <= query.seqnum {
      PrevSeen(space, entries, query.seqnum, query.tag, found, j);
    }
  }

  lemma {:induction false} PrevSeen(space: nat, entries: seq<IndexEntry>, q: nat, tag: nat, found: Option<Found>, j: nat)
    requires FoundPrev(space, entries, q, tag, found) && j < |entries| && Matches(entries[j], tag)
    requires JoinTwo32(space, entries[j].seqnum) <= q
    ensures found.Some? && JoinTwo32(space, entries[j].seqnum) <= found.value.seqnum
    ensures found.value.seqnum <= q <==> !TailWraps(space, entries, q, tag)
  {
    FoundWithin(space, entries, q, tag, found);
  }

  lemma {:induction false} SpaceOfSeqnum(space: nat, s: nat)
    requires s < TWO32
    ensures ViewId(JoinTwo32(space, s)) == SpaceView(space)
  {
    assert SpaceView(space) * TWO16 <= space < (SpaceView(space) + 1) * TWO16;
  }

  lemma {:induction false} ViewMonotone(a: nat, b: nat)
    requires a <= b
    ensures ViewId(a) <= ViewId(b)
  {
  }

  /** Reads of a growing log only move forward: ReadPrev never returns something older later on, and
      what ReadNext has found it finds again. */
  lemma {:induction false} ReadsMoveForward(space: nat, truth: seq<IndexEntry>, u: nat, x: nat, y: nat, q: nat,
                                            tag: nat,
                                            early: Option<Found>, late: Option<Found>)
    requires InOrder(truth) && x <= y <= |truth| && early.Some?
    ensures FoundPrev(space, ForUser(truth[..x], u), q, tag, early)
            && FoundPrev(space, ForUser(truth[..y], u), q, tag, late) ==>
              late.Some? && early.value.seqnum <= late.value.seqnum
    ensures NextRight(space, ForUser(truth[..x], u), q, tag, early)
            && NextRight(space, ForUser(truth[..y], u), q, tag, late) ==>
              late == early
  {
    ForUserPrefix(truth, u, x, y);
    ForUserIndexable(truth[..y], u);
    var a, b := ForUser(truth[..x], u), ForUser(truth[..y], u);
    if FoundPrev(space, a, q, tag, early) && FoundPrev(space, b, q, tag, late) {
      PrevMovesForward(space, a, b, q, tag, early, late);
    }
    if NextRight(space, a, q, tag, early) && NextRight(space, b, q, tag, late) {
      NextStays(space, a, b, q, tag, early.value, late);
    }
  }

  lemma {:induction false} PrevMovesForward(space: nat, a: seq<IndexEntry>, b: seq<IndexEntry>, q: nat, tag: nat,
                                            early: Option<Found>, late: Option<Found>)
    requires a <= b && early.Some? && FoundPrev(space, a, q, tag, early) && FoundPrev(space, b, q, tag, late)
    ensures late.Some? && early.value.seqnum <= late.value.seqnum
  {
    var i := Same(space, a, b, tag, early.value);
    if TailWraps(space, a, q, tag) {
      WrapsMore(space, a, b, q, tag);
    }
  }

  // More entries leave a query in the family.
  lemma {:induction false} WrapsMore(space: nat, a: seq<IndexEntry>, b: seq<IndexEntry>, q: nat, tag: nat)
    requires a <= b && TailWraps(space, a, q, tag)
    ensures TailWraps(space, b, q, tag)
  {
    var x :| x > 0 && Has(a, tag, x);
    HasMore(a, b, tag, 0);
    HasMore(a, b, tag, x);
  }

  lemma {:induction false} HasMore(a: seq<IndexEntry>, b: seq<IndexEntry>, tag: nat, x: nat)
    requires a <= b && Has(a, tag, x)
    ensures Has(b, tag, x)
  {
    var i :| 0 <= i < |a| && a[i].seqnum == x && Matches(a[i], tag);
    assert b[i] == a[i];
  }

  lemma {:induction false} Same(space: nat, a: seq<IndexEntry>, b: seq<IndexEntry>, tag: nat, f: Found) returns (i: nat)
    requires a <= b && Lookup.Describes(f, space, a, tag)
    ensures i < |a| && b[i] == a[i] && Matches(b[i], tag)
    ensures f == Found(SpaceView(space), b[i].shard, JoinTwo32(space, b[i].seqnum))
  {
    i :| 0 <= i < |a| && Matches(a[i], tag) && f.seqnum == JoinTwo32(space, a[i].seqnum) && f.engine == a[i].shard;
  }

  lemma {:induction false} NextStays(space: nat, a: seq<IndexEntry>, b: seq<IndexEntry>, q: nat, tag: nat,
                                     f: Found, late: Option<Found>)
    requires a <= b && Indexable(b) && NextRight(space, a, q, tag, Some(f)) && NextRight(space, b, q, tag, late)
    ensures late == Some(f)
  {
    var i := Same(space, a, b, tag, f);
    var j := Same(space, b, b, tag, late.value);
  }

  /** A query continued to an older view and answered when that view ends sees all of it if and only
      if everything of its user log space is indexed by then. */
  lemma {:induction false} ContinuedCompleteIff(space: nat, truth: seq<IndexEntry>, u: nat, x: nat)
    requires InOrder(truth) && x <= |truth|
    ensures (forall q: nat, tag: nat, found: Option<Found> :: NextRight(space, ForUser(truth[..x], u), q, tag, found) ==>
               NextRight(space, ForUser(truth, u), q, tag, found))
            <==> ForUser(truth[..x], u) == ForUser(truth, u)
  {
    assert truth[..|truth|] == truth;
    ForUserPrefix(truth, u, x, |truth|);
    ForUserIndexable(truth, u);
    var a, b := ForUser(truth[..x], u), ForUser(truth, u);
    if a != b {
      var missing := JoinTwo32(space, b[|a|].seqnum);
      assert Matches(b[|a|], EMPTY_TAG);
      assert NextRight(space, a, missing, EMPTY_TAG, None) && !NextRight(space, b, missing, EMPTY_TAG, None);
    }
  }

  // ------------------------------------------------------------------------
  // Whole sessions

  // What a function call does: an append that was acknowledged, or a read that was answered from
  // metalog position `at`.
  datatype Event =
    | Appended(progress: nat)
    | Read(query: Query, result: Result, at: nat, found: Option<Found>)

  // FinishLocalOpWithResponse: the context keeps the largest progress.
  function Raised(progress: nat, more: nat): nat {
    if more > progress then more else progress
  }

  function EventProgress(e: Event): nat {
    if e.Appended? then e.progress else e.result.progress
  }

  function SessionProgress(events: seq<Event>): nat {
    if events == [] then 0
    else
      var last := events[|events| - 1];
      Raised(SessionProgress(events[..|events| - 1]), EventProgress(last))
  }

  // Every read carries the context's progress and is answered by the index of its log space.
  ghost predicate IsSession(space: nat, truth: seq<IndexEntry>, log: seq<MetaLog>, events: seq<Event>) {
    forall j :: 0 <= j < |events| && events[j].Read? ==> ReadOk(space, truth, log, events, j)
  }

  ghost predicate ReadOk(space: nat, truth: seq<IndexEntry>, log: seq<MetaLog>, events: seq<Event>, j: nat)
    requires j < |events| && events[j].Read?
  {
    var e := events[j];
    && e.query.initial && e.query.prev.None? && e.query.progress == SessionProgress(events[..j])
    && AnswersAt(space, truth, log, e.result, e.at, e.query, e.found)
  }

  lemma {:induction false} ProgressOnlyGrows(events: seq<Event>, i: nat, j: nat)
    requires i <= j <= |events|
    ensures SessionProgress(events[..i]) <= SessionProgress(events[..j])
    ensures i < j ==> EventProgress(events[i]) <= SessionProgress(events[..j])
    decreases j
  {
    if i < j {
      assert events[..j][..j - 1] == events[..j - 1];
      if i < j - 1 {
        ProgressOnlyGrows(events, i, j - 1);
      }
    }
  }

  /** A call's progress is that of one of its events, or none. */
  lemma {:induction false} ProgressIsSeen(events: seq<Event>)
    ensures SessionProgress(events) == 0 || exists i :: 0 <= i < |events| && EventProgress(events[i]) == SessionProgress(events)
  {
    if events != [] {
      var front := events[..|events| - 1];
      ProgressIsSeen(front);
      if SessionProgress(events) != 0 && EventProgress(events[|events| - 1]) != SessionProgress(events) {
        var i :| 0 <= i < |front| && EventProgress(front[i]) == SessionProgress(front);
        assert events[i] == front[i];
      }
    }
  }

  /** In every session, a read after an acknowledged append, by the same call and in the same log space,
      sees the append, if the answer carries at least the progress of the query; and it does so
      if and only if it was not answered before its time, at the end of a view. */
  lemma {:induction false} SessionSeesAppend(space: nat, truth: seq<IndexEntry>, log: seq<MetaLog>, n: nat,
                                             events: seq<Event>,
                                             a: nat, k: nat, i: nat, l: nat, j: nat)
    requires Chain(log, n) && InOrder(truth) && IsSession(space, truth, log, events)
    requires a < j < |events| && events[a] == Appended(JoinTwo32(space, k + 1)) && k + 1 < TWO32
    requires k < |log| && i < n && Covers(log[k], i, l) && SeqnumIn(log[k], i, l) < |truth|
    requires events[j].Read? && events[j].query.progress / TWO32 == space
    requires var e := truth[SeqnumIn(log[k], i, l)];
             Matches(e, events[j].query.tag) && e.userLogspace == events[j].query.userLogspace
    ensures var e := events[j];
            && e.at <= |log| && Total(log, e.at) <= |truth|
            && (e.query.progress <= e.result.progress <==> Reached(space, e.query, e.at))
            && (e.query.progress <= e.result.progress ==>
                  Sees(space, Mine(truth, log, e.at, e.query.userLogspace), e.query, e.result,
                       JoinTwo32(space, SeqnumIn(log[k], i, l))))
  {
    var e := events[j];
    assert ReadOk(space, truth, log, events, j);
    ProgressOnlyGrows(events, a, j);
    LowHalves(space, k + 1, e.query.progress);
    ProgressGrows(space, truth, log, e.result, e.at, e.query, e.found);
    OwnAppendSeen(space, truth, log, n, k, i, l, e.result, e.at, e.query, e.found);
  }

  lemma {:induction false} LowHalves(space: nat, p: nat, progress: nat)
    requires JoinTwo32(space, p) <= progress && progress / TWO32 == space && p < TWO32
    ensures p <= progress % TWO32
  {
    assert progress == space * TWO32 + progress % TWO32;
  }

  // In every session, later reads of one log space are answered from at least as much of the log.
  lemma {:induction false} SessionAtGrows(space: nat, truth: seq<IndexEntry>, log: seq<MetaLog>,
                                          events: seq<Event>, a: nat, j: nat)
    requires IsSession(space, truth, log, events) && a < j < |events| && events[a].Read? && events[j].Read?
    requires |log| < TWO32 && events[j].query.progress / TWO32 == space
    requires ViewId(events[a].query.progress) < SpaceView(space) || events[a].query.progress / TWO32 == space
    ensures events[j].query.progress <= events[j].result.progress ==> events[a].at <= events[j].at
  {
    assert ReadOk(space, truth, log, events, a) && ReadOk(space, truth, log, events, j);
    var e, e' := events[a], events[j];
    ProgressGrows(space, truth, log, e.result, e.at, e.query, e.found);
    ProgressGrows(space, truth, log, e'.result, e'.at, e'.query, e'.found);
    ProgressOnlyGrows(events, a, j);
    LowHalves(space, e.at, e'.query.progress);
    assert ViewId(e'.query.progress) == SpaceView(space);
  }

  // The same read again, blocking or not.
  predicate SameRead(a: Query, b: Query) {
    && (a.direction.ReadPrev? <==> b.direction.ReadPrev?)
    && a.seqnum == b.seqnum && a.tag == b.tag && a.userLogspace == b.userLogspace
  }

  // A later result is no step back: ReadPrev finds the same or something newer, and what ReadNext has
  // found, or carries to an older view, it finds again.
  ghost predicate NoStepBack(query: Query, r: Result, r': Result) {
    && (query.direction.ReadPrev? && r.FoundResult? ==> r'.FoundResult? && r.found.seqnum <= r'.found.seqnum)
    && (!query.direction.ReadPrev? && Carried(r).Some? ==>
          Carried(r') == Carried(r) && (r.FoundResult? <==> r'.FoundResult?))
  }

  // What ReadPrev returns lies at or before the query, exactly outside the family that FindPrev gets wrong.
  ghost predicate Within(space: nat, entries: seq<IndexEntry>, query: Query, r: Result) {
    query.direction.ReadPrev? && r.FoundResult? ==>
      (r.found.seqnum <= query.seqnum <==> !TailWraps(space, entries, query.seqnum, query.tag))
  }

  lemma {:induction false} FoundWithin(space: nat, entries: seq<IndexEntry>, q: nat, tag: nat, found: Option<Found>)
    requires FoundPrev(space, entries, q, tag, found) && found.Some?
    ensures found.value.seqnum <= q <==> !TailWraps(space, entries, q, tag)
  {
    if TailWraps(space, entries, q, tag) {
      var x :| x > 0 && Has(entries, tag, x);
      var i :| 0 <= i < |entries| && entries[i].seqnum == x && Matches(entries[i], tag);
      assert JoinTwo32(space, entries[i].seqnum) <= found.value.seqnum;
    }
  }

  lemma {:induction false} AnswerWithin(space: nat, truth: seq<IndexEntry>, log: seq<MetaLog>, query: Query, r: Result,
                                        p: nat, found: Option<Found>)
    requires AnswersAt(space, truth, log, r, p, query, found) && query.initial && query.prev.None?
    ensures Within(space, Mine(truth, log, p, query.userLogspace), query, r)
  {
    if query.direction.ReadPrev? && found.Some? {
      FoundWithin(space, Mine(truth, log, p, query.userLogspace), query.seqnum, query.tag, found);
    }
  }

  /** On more of the log the same read makes no step back. */
  lemma {:induction false} RereadForward(space: nat, truth: seq<IndexEntry>, log: seq<MetaLog>, query: Query, r: Result,
                                         p: nat, found: Option<Found>, query': Query, r': Result, p': nat,
                                         found': Option<Found>)
    requires InOrder(truth) && SameRead(query, query') && p <= p'
    requires query.initial && query'.initial && query.prev.None? && query'.prev.None?
    requires AnswersAt(space, truth, log, r, p, query, found) && AnswersAt(space, truth, log, r', p', query', found')
    ensures NoStepBack(query, r, r') && Within(space, Mine(truth, log, p', query'.userLogspace), query', r')
  {
    SumsMonotone(log, p, p');
    AnswerWithin(space, truth, log, query', r', p', found');
    if found.Some? {
      ReadsMoveForward(space, truth, query.userLogspace, Total(log, p), Total(log, p'), query.seqnum, query.tag, found,
                       found');
    }
  }

  /** In every session, repeating a read makes no step back, whatever the call does in between, if the
      later answer carries at least the progress of its query. */
  lemma {:induction false} SessionReadsForward(space: nat, truth: seq<IndexEntry>, log: seq<MetaLog>,
                                               events: seq<Event>, a: nat, j: nat)
    requires IsSession(space, truth, log, events) && a < j < |events| && events[a].Read? && events[j].Read?
    requires InOrder(truth) && |log| < TWO32
    requires events[j].query.progress / TWO32 == space
    requires ViewId(events[a].query.progress) < SpaceView(space) || events[a].query.progress / TWO32 == space
    requires SameRead(events[a].query, events[j].query)
    ensures var e := events[j];
            && e.at <= |log| && Total(log, e.at) <= |truth|
            && (e.query.progress <= e.result.progress ==>
                  && NoStepBack(events[a].query, events[a].result, e.result)
                  && Within(space, Mine(truth, log, e.at, e.query.userLogspace), e.query, e.result))
  {
    SessionAtGrows(space, truth, log, events, a, j);
    assert ReadOk(space, truth, log, events, a) && ReadOk(space, truth, log, events, j);
    var e, e' := events[a], events[j];
    if e'.query.progress <= e'.result.progress {
      RereadForward(space, truth, log, e.query, e.result, e.at, e.found, e'.query, e'.result, e'.at, e'.found);
    }
  }
}
