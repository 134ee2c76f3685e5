/**
 Read queries over several views.

 A query starts at the index of the newest view and moves to older views while
 the answer may lie there.  Every view has its own index; sequence numbers carry
 the view in their upper bits.
 */
module Queries {
  import opened Options
  import opened Lookup

  datatype Direction = ReadNext | ReadPrev | ReadNextB

  datatype Query = Query(
    direction: Direction,
    initial: bool,
    userLogspace: nat,
    tag: nat,
    seqnum: nat,
    progress: nat,
    prev: Option<Found>)

  datatype Result =
    | FoundResult(progress: nat, query: Query, found: Found)
    | EmptyResult(progress: nat, query: Query)
    | ContinueResult(progress: nat, query: Query, nextView: nat, soFar: Option<Found>)

  // ------------------------------------------------------------------------
  // One index

  // The entries of one user log space, in order.
  function ForUser(entries: seq<IndexEntry>, u: nat): seq<IndexEntry> {
    if entries == [] then []
    else
      var last := entries[|entries| - 1];
      ForUser(entries[..|entries| - 1], u) + if last.userLogspace == u then [last] else []
  }

  /** Those of the user log space and no others. */
  lemma {:induction false} ForUserIff(entries: seq<IndexEntry>, u: nat, e: IndexEntry)
    ensures e in ForUser(entries, u) <==> e in entries && e.userLogspace == u
  {
    if entries != [] {
      var front, last := entries[..|entries| - 1], entries[|entries| - 1];
      ForUserIff(front, u, e);
      assert entries == front + [last];
    }
  }

  // What the index finds for a query among these entries.
  ghost predicate FoundFor(space: nat, entries: seq<IndexEntry>, query: Query, found: Option<Found>) {
    var mine := ForUser(entries, query.userLogspace);
    if query.direction.ReadPrev?
    then FoundPrev(space, mine, query.seqnum, query.tag, found)
    else NextRight(space, mine, query.seqnum, query.tag, found)
  }

  lemma {:induction false} NothingFound(space: nat, entries: seq<IndexEntry>, query: Query)
    requires ForUser(entries, query.userLogspace) == []
    ensures FoundFor(space, entries, query, None)
  {
  }

  // `now` is the index's own progress; later queries of a chain keep the first one's.
  function ProgressOf(query: Query, now: nat): nat {
    if query.initial then now else query.progress
  }

  function BuildContinueResult(view: nat, now: nat, query: Query, found: Option<Found>): Result
    requires view > 0
  {
    ContinueResult(ProgressOf(query, now),
                   if query.direction.ReadNextB? then query.(direction := ReadNext) else query,
                   view - 1,
                   if found.Some? then found else if !query.initial then query.prev else None)
  }

  function ProcessReadNext(view: nat, now: nat, query: Query, found: Option<Found>): Result {
    var q := ViewId(query.seqnum);
    if q > view then EmptyResult(ProgressOf(query, now), query)
    else if q == view then
      if found.Some? then FoundResult(ProgressOf(query, now), query, found.value)
      else if query.prev.Some? then FoundResult(ProgressOf(query, now), query, query.prev.value)
      else EmptyResult(ProgressOf(query, now), query)
    else BuildContinueResult(view, now, query, found)
  }

  function ProcessReadPrev(view: nat, now: nat, query: Query, found: Option<Found>): Result {
    if ViewId(query.seqnum) < view then BuildContinueResult(view, now, query, None)
    else if found.Some? then FoundResult(ProgressOf(query, now), query, found.value)
    else if view > 0 then BuildContinueResult(view, now, query, None)
    else EmptyResult(ProgressOf(query, now), query)
  }

  // None: the query has to wait.
  function ProcessBlockingQuery(view: nat, now: nat, query: Query, found: Option<Found>): Option<Result> {
    var q := ViewId(query.seqnum);
    if q > view then Some(EmptyResult(ProgressOf(query, now), query))
    else if q == view then
      if found.Some? then Some(FoundResult(ProgressOf(query, now), query, found.value)) else None
    else Some(BuildContinueResult(view, now, query, found))
  }

  function ProcessQuery(view: nat, now: nat, query: Query, found: Option<Found>): Option<Result> {
    match query.direction
    case ReadNextB => ProcessBlockingQuery(view, now, query, found)
    case ReadNext => Some(ProcessReadNext(view, now, query, found))
    case ReadPrev => Some(ProcessReadPrev(view, now, query, found))
  }

  // ------------------------------------------------------------------------
  // The chain of indexes

  // An index: its log space, its progress and the entries it holds.
  datatype ViewIndex = ViewIndex(space: nat, progress: nat, entries: seq<IndexEntry>)

  // A view keeps every user log space in one of its log spaces.
  type View = nat -> ViewIndex

  // One user log space in every view.
  ghost function OfUser(views: seq<View>, u: nat): (mine: seq<ViewIndex>)
    ensures |mine| == |views|
    ensures forall k :: 0 <= k < |mine| ==>
              mine[k] == ViewIndex(views[k](u).space, views[k](u).progress, ForUser(views[k](u).entries, u))
  {
    seq(|views|, k requires 0 <= k < |views| =>
      ViewIndex(views[k](u).space, views[k](u).progress, ForUser(views[k](u).entries, u)))
  }

  ghost predicate ValidViews(views: seq<ViewIndex>) {
    forall k :: 0 <= k < |views| ==> SpaceView(views[k].space) == k && Indexable(views[k].entries)
  }

  // `find` is what the index of each view finds for a query.
  ghost predicate Finds(views: seq<View>, find: (nat, Query) -> Option<Found>) {
    forall k: nat, query: Query :: k < |views| ==> FindsAt(views[k](query.userLogspace), query, find(k, query))
  }

  ghost predicate FindsAt(v: ViewIndex, query: Query, found: Option<Found>) {
    FoundFor(v.space, v.entries, query, found)
  }

  // What the chain of one query, and of the queries continued from it, needs of the views.
  ghost predicate Serves(views: seq<View>, find: (nat, Query) -> Option<Found>, mine: seq<ViewIndex>, query: Query) {
    && |mine| == |views|
    && (forall k :: 0 <= k < |mine| ==> mine[k].progress == views[k](query.userLogspace).progress)
    && forall k: nat, x: Query :: k < |mine| && SameSearch(x, query) ==> FindsMine(mine[k], x, find(k, x))
  }

  predicate SameSearch(a: Query, b: Query) {
    && a.userLogspace == b.userLogspace && a.seqnum == b.seqnum && a.tag == b.tag
    && (a.direction.ReadPrev? <==> b.direction.ReadPrev?)
  }

  ghost predicate FindsMine(v: ViewIndex, query: Query, found: Option<Found>) {
    if query.direction.ReadPrev?
    then FoundPrev(v.space, v.entries, query.seqnum, query.tag, found)
    else NextRight(v.space, v.entries, query.seqnum, query.tag, found)
  }

  lemma {:induction false} ViewsServe(views: seq<View>, find: (nat, Query) -> Option<Found>, query: Query)
    requires Finds(views, find)
    ensures Serves(views, find, OfUser(views, query.userLogspace), query)
  {
    var mine := OfUser(views, query.userLogspace);
    forall k: nat, x: Query | k < |mine| && SameSearch(x, query)
      ensures FindsMine(mine[k], x, find(k, x))
    {
      assert FindsAt(views[k](x.userLogspace), x, find(k, x));
    }
  }

  lemma {:induction false} ServesOn(views: seq<View>, find: (nat, Query) -> Option<Found>, mine: seq<ViewIndex>, query: Query,
                                    next: Query)
    requires Serves(views, find, mine, query) && SameSearch(next, query)
    ensures Serves(views, find, mine, next)
  {
  }

  // BuildIndexQuery: the query for the next view.
  function Continued(r: Result): Query
    requires r.ContinueResult?
  {
    r.query.(initial := false, progress := r.progress, prev := r.soFar)
  }

  // What the chain from view w answers: a result that is to be continued goes to the index of the view
  // it names, for the user log space of its query.
  function Chase(views: seq<View>, find: (nat, Query) -> Option<Found>, w: nat, query: Query): Option<Result>
    requires w < |views|
    decreases w
  {
    match ProcessQuery(w, views[w](query.userLogspace).progress, query, find(w, query))
    case None => None
    case Some(r) => if r.ContinueResult? && r.nextView < w then Chase(views, find, r.nextView, Continued(r)) else Some(r)
  }

  // ------------------------------------------------------------------------
  // What the answer must be

  function SeqnumAt(v: ViewIndex, i: nat): nat
    requires i < |v.entries|
  {
    JoinTwo32(v.space, v.entries[i].seqnum)
  }

  // Entry i of a view matches the query.
  ghost predicate Matching(v: ViewIndex, tag: nat, i: nat) {
    i < |v.entries| && Matches(v.entries[i], tag)
  }

  // The least matching sequence number at least the query's, over views lo..hi-1.
  ghost predicate NextOver(views: seq<ViewIndex>, lo: nat, hi: nat, q: nat, tag: nat, r: Option<Found>)
    requires hi <= |views|
  {
    match r
    case None => forall k, i: nat :: lo <= k < hi && Matching(views[k], tag, i) ==> SeqnumAt(views[k], i) < q
    case Some(f) =>
      && f.seqnum >= q && FromView(views, lo, hi, tag, f)
      && forall k, i: nat :: lo <= k < hi && Matching(views[k], tag, i) && SeqnumAt(views[k], i) >= q ==>
           SeqnumAt(views[k], i) >= f.seqnum
  }

  ghost predicate PrevOver(views: seq<ViewIndex>, lo: nat, hi: nat, q: nat, tag: nat, r: Option<Found>)
    requires hi <= |views|
  {
    match r
    case None => forall k, i: nat :: lo <= k < hi && Matching(views[k], tag, i) ==> SeqnumAt(views[k], i) > q
    case Some(f) =>
      && f.seqnum <= q && FromView(views, lo, hi, tag, f)
      && forall k, i: nat :: lo <= k < hi && Matching(views[k], tag, i) && SeqnumAt(views[k], i) <= q ==>
           SeqnumAt(views[k], i) <= f.seqnum
  }

  ghost predicate FromView(views: seq<ViewIndex>, lo: nat, hi: nat, tag: nat, f: Found)
    requires hi <= |views|
  {
    lo <= f.view < hi && Lookup.Describes(f, views[f.view].space, views[f.view].entries, tag)
  }

  function Answer(r: Result): Option<Found> {
    if r.FoundResult? then Some(r.found) else None
  }

  // The upper bits of a sequence number are the view.
  lemma {:induction false} ViewOf(v: ViewIndex, k: nat, i: nat)
    requires SpaceView(v.space) == k && Indexable(v.entries) && i < |v.entries|
    ensures k * TWO48 <= SeqnumAt(v, i) < (k + 1) * TWO48
    ensures ViewId(SeqnumAt(v, i)) == k
  {
    assert k * TWO16 <= v.space < (k + 1) * TWO16;
  }

  // Later views have greater sequence numbers.
  lemma {:induction false} ViewsOrdered(views: seq<ViewIndex>, j: nat, i: nat, k: nat, l: nat)
    requires ValidViews(views) && j < k < |views| && i < |views[j].entries| && l < |views[k].entries|
    ensures SeqnumAt(views[j], i) < SeqnumAt(views[k], l)
  {
    ViewOf(views[j], j, i);
    ViewOf(views[k], k, l);
    assert (j + 1) * TWO48 <= k * TWO48;
  }

  lemma {:induction false} QueryView(q: nat)
    ensures ViewId(q) * TWO48 <= q < (ViewId(q) + 1) * TWO48
  {
  }

  lemma {:induction false} FoundView(v: ViewIndex, tag: nat, f: Found, k: nat) returns (i: nat)
    requires Lookup.Describes(f, v.space, v.entries, tag) && SpaceView(v.space) == k
    ensures f.view == k && Matching(v, tag, i) && f.seqnum == SeqnumAt(v, i) && f.engine == v.entries[i].shard
  {
    i :| 0 <= i < |v.entries| && Matches(v.entries[i], tag)
         && f.seqnum == JoinTwo32(v.space, v.entries[i].seqnum) && f.engine == v.entries[i].shard;
  }

  // Adding an older view below: what it has is less than what was found in newer ones.
  lemma {:induction false} NextBelow(views: seq<ViewIndex>, w: nat, hi: nat, q: nat, tag: nat, found: Option<Found>,
                                     prev: Option<Found>)
    requires ValidViews(views) && w < hi <= |views|
    requires NextRight(views[w].space, views[w].entries, q, tag, found) && NextOver(views, w + 1, hi, q, tag, prev)
    ensures NextOver(views, w, hi, q, tag, if found.Some? then found else prev)
  {
    if found.Some? {
      var x := FoundView(views[w], tag, found.value, w);
      forall k, i: nat | w <= k < hi && Matching(views[k], tag, i) && SeqnumAt(views[k], i) >= q
        ensures SeqnumAt(views[k], i) >= found.value.seqnum
      {
        if k > w {
          ViewsOrdered(views, w, x, k, i);
        }
      }
    }
  }

  // Views older than the query's have nothing at or after it.
  lemma {:induction false} NothingOlder(views: seq<ViewIndex>, w: nat, hi: nat, q: nat, tag: nat, r: Option<Found>)
    requires ValidViews(views) && w <= hi <= |views| && w <= ViewId(q) && NextOver(views, w, hi, q, tag, r)
    ensures NextOver(views, 0, hi, q, tag, r)
  {
    forall k, i: nat | 0 <= k < w && Matching(views[k], tag, i)
      ensures SeqnumAt(views[k], i) < q
    {
      ViewOf(views[k], k, i);
      QueryView(q);
      assert (k + 1) * TWO48 <= ViewId(q) * TWO48;
    }
  }

  lemma {:induction false} ChaseNext(views: seq<View>, find: (nat, Query) -> Option<Found>, mine: seq<ViewIndex>, w: nat,
                                     top: nat, query: Query)
    requires Serves(views, find, mine, query) && ValidViews(mine) && w <= top < |views|
    requires query.direction.ReadNext? && !query.initial && ViewId(query.seqnum) <= w
    requires NextOver(mine, w + 1, top + 1, query.seqnum, query.tag, query.prev)
    ensures NextDone(mine, top + 1, query.seqnum, query.tag, query.progress, Chase(views, find, w, query))
    decreases w
  {
    BestOver(views, find, mine, w, top, query);
    NextStep(views, find, w, query);
    var best := Best(query, find(w, query));
    if ViewId(query.seqnum) < w {
      var next := OlderNext(query, mine[w].progress, best);
      ServesOn(views, find, mine, query, next);
      ChaseNext(views, find, mine, w - 1, top, next);
      NextChain(mine, w, top, query, best, Chase(views, find, w - 1, next));
    } else {
      NextChain(mine, w, top, query, best, None);
    }
  }

  lemma {:induction false} BestOver(views: seq<View>, find: (nat, Query) -> Option<Found>, mine: seq<ViewIndex>, w: nat,
                                    top: nat, query: Query)
    requires Serves(views, find, mine, query) && ValidViews(mine) && w <= top < |views|
    requires !query.direction.ReadPrev? && NextOver(mine, w + 1, top + 1, query.seqnum, query.tag, query.prev)
    ensures NextOver(mine, w, top + 1, query.seqnum, query.tag, Best(query, find(w, query)))
  {
    assert FindsMine(mine[w], query, find(w, query));
    NextBelow(mine, w, top + 1, query.seqnum, query.tag, find(w, query), query.prev);
  }

  lemma {:induction false} NextChain(mine: seq<ViewIndex>, w: nat, top: nat, query: Query, best: Option<Found>,
                                     older: Option<Result>)
    requires ValidViews(mine) && w <= top < |mine| && NextOver(mine, w, top + 1, query.seqnum, query.tag, best)
    requires ViewId(query.seqnum) > w ==> w == top && best.None?
    requires ViewId(query.seqnum) < w ==>
               NextDone(mine, top + 1, query.seqnum, query.tag, ProgressOf(query, mine[w].progress), older)
    ensures NextDone(mine, top + 1, query.seqnum, query.tag, ProgressOf(query, mine[w].progress),
                     NextResult(w, query, mine[w].progress, best, older))
  {
    if ViewId(query.seqnum) >= w {
      NothingOlder(mine, w, top + 1, query.seqnum, query.tag, best);
      NextEnded(mine, top + 1, query, mine[w].progress, best);
    }
  }

  // What one view makes of the best match so far and of the answer of the older views.
  function NextResult(w: nat, query: Query, now: nat, best: Option<Found>, older: Option<Result>): Option<Result> {
    if ViewId(query.seqnum) > w then Some(Ended(query, now, None))
    else if ViewId(query.seqnum) == w then Some(Ended(query, now, best))
    else older
  }

  // The chain has ended with the answer over the views below hi.
  ghost predicate NextDone(mine: seq<ViewIndex>, hi: nat, q: nat, tag: nat, progress: nat, r: Option<Result>)
    requires hi <= |mine|
  {
    && r.Some? && !r.value.ContinueResult? && r.value.progress == progress
    && NextOver(mine, 0, hi, q, tag, Answer(r.value))
  }

  lemma {:induction false} NextEnded(mine: seq<ViewIndex>, hi: nat, query: Query, now: nat, best: Option<Found>)
    requires hi <= |mine| && NextOver(mine, 0, hi, query.seqnum, query.tag, best)
    ensures NextDone(mine, hi, query.seqnum, query.tag, ProgressOf(query, now), Some(Ended(query, now, best)))
  {
  }

  // The best match so far.
  function Best(query: Query, found: Option<Found>): Option<Found> {
    if found.Some? then found else query.prev
  }

  // The query as it comes to the next older view.
  function OlderNext(query: Query, now: nat, best: Option<Found>): Query {
    query.(direction := ReadNext, initial := false, progress := ProgressOf(query, now), prev := best)
  }

  function Ended(query: Query, now: nat, best: Option<Found>): Result {
    if best.Some? then FoundResult(ProgressOf(query, now), query, best.value) else EmptyResult(ProgressOf(query, now), query)
  }

  lemma {:induction false} NextStep(views: seq<View>, find: (nat, Query) -> Option<Found>, w: nat, query: Query)
    requires w < |views| && query.direction.ReadNext? && (query.initial ==> query.prev.None?)
    ensures var now, best := views[w](query.userLogspace).progress, Best(query, find(w, query));
            Chase(views, find, w, query)
            == NextResult(w, query, now, best,
                          if ViewId(query.seqnum) < w then Chase(views, find, w - 1, OlderNext(query, now, best)) else None)
  {
  }

  lemma {:induction false} BlockStep(views: seq<View>, find: (nat, Query) -> Option<Found>, w: nat, query: Query)
    requires w < |views| && query.direction.ReadNextB? && query.initial && query.prev.None?
    ensures var now, found := views[w](query.userLogspace).progress, find(w, query);
            Chase(views, find, w, query)
            == if ViewId(query.seqnum) == w && found.None? then None
               else NextResult(w, query, now, found,
                               if ViewId(query.seqnum) < w then Chase(views, find, w - 1, OlderNext(query, now, found)) else None)
  {
  }

  /** ReadNext over views: the chain from the newest view always ends with an answer, and the answer
      is the matching entry with the least sequence number at least the query's over all views, with
      the engine that holds it, or nothing when there is none.  It carries the newest view's progress. */
  lemma {:induction false} ReadNextRight(views: seq<View>, find: (nat, Query) -> Option<Found>, mine: seq<ViewIndex>,
                                         query: Query)
    requires Serves(views, find, mine, query) && ValidViews(mine) && views != []
    requires query.direction.ReadNext? && query.initial && query.prev.None?
    ensures NextDone(mine, |views|, query.seqnum, query.tag, mine[|views| - 1].progress, Chase(views, find, |views| - 1, query))
  {
    var w := |views| - 1;
    var found := find(w, query);
    assert FindsMine(mine[w], query, found);
    NextStep(views, find, w, query);
    NewestNext(mine, query.seqnum, query.tag, found);
    if ViewId(query.seqnum) < w {
      var next := OlderNext(query, mine[w].progress, found);
      ServesOn(views, find, mine, query, next);
      ChaseNext(views, find, mine, w - 1, w, next);
      NextChain(mine, w, w, query, found, Chase(views, find, w - 1, next));
    } else {
      NextChain(mine, w, w, query, found, None);
    }
  }

  // What the newest view says about all of them.
  lemma {:induction false} NewestNext(mine: seq<ViewIndex>, q: nat, tag: nat, found: Option<Found>)
    requires ValidViews(mine) && mine != []
    requires NextRight(mine[|mine| - 1].space, mine[|mine| - 1].entries, q, tag, found)
    ensures NextOver(mine, |mine| - 1, |mine|, q, tag, found)
    ensures ViewId(q) >= |mine| - 1 ==> NextOver(mine, 0, |mine|, q, tag, found)
    ensures ViewId(q) > |mine| - 1 ==> found.None?
  {
    var w := |mine| - 1;
    NextBelow(mine, w, |mine|, q, tag, found, None);
    if ViewId(q) >= w {
      NothingOlder(mine, w, |mine|, q, tag, found);
    }
    if found.Some? {
      var i := FoundView(mine[w], tag, found.value, w);
      ViewOf(mine[w], w, i);
      assert ViewId(found.value.seqnum) >= ViewId(q);
    }
  }

  lemma {:induction false} NoneOrFound(mine: seq<ViewIndex>, q: nat, tag: nat, found: Option<Found>)
    requires NextOver(mine, 0, |mine|, q, tag, found)
    ensures NextOver(mine, 0, |mine|, q, tag, None) <==> found.None?
  {
    if found.Some? {
      var k := found.value.view;
      var i :| 0 <= i < |mine[k].entries| && Matches(mine[k].entries[i], tag)
               && found.value.seqnum == JoinTwo32(mine[k].space, mine[k].entries[i].seqnum);
      assert Matching(mine[k], tag, i) && SeqnumAt(mine[k], i) >= q;
    }
  }

  /** A blocking ReadNext that is answered is answered like ReadNext, and with nothing only when the
      query is for a view to come; it waits exactly when its view is the newest and has no match. */
  lemma {:induction false} ReadNextBRight(views: seq<View>, find: (nat, Query) -> Option<Found>, mine: seq<ViewIndex>,
                                          query: Query)
    requires Serves(views, find, mine, query) && ValidViews(mine) && views != []
    requires query.direction.ReadNextB? && query.initial && query.prev.None?
    ensures var r := Chase(views, find, |views| - 1, query);
            && (r.None? <==> ViewId(query.seqnum) == |views| - 1 && NextOver(mine, 0, |views|, query.seqnum, query.tag, None))
            && (r.Some? ==> NextDone(mine, |views|, query.seqnum, query.tag, mine[|views| - 1].progress, r))
  {
    var w := |views| - 1;
    var found := find(w, query);
    assert FindsMine(mine[w], query, found);
    BlockStep(views, find, w, query);
    NewestNext(mine, query.seqnum, query.tag, found);
    if ViewId(query.seqnum) < w {
      var next := OlderNext(query, mine[w].progress, found);
      ServesOn(views, find, mine, query, next);
      ChaseNext(views, find, mine, w - 1, w, next);
      NextChain(mine, w, w, query, found, Chase(views, find, w - 1, next));
    } else {
      NoneOrFound(mine, query.seqnum, query.tag, found);
      NextChain(mine, w, w, query, found, None);
    }
  }

  // What is found in a view beats everything older.
  lemma {:induction false} PrevFound(views: seq<ViewIndex>, w: nat, q: nat, tag: nat, found: Found)
    requires ValidViews(views) && w < |views| && PrevRight(views[w].space, views[w].entries, q, tag, Some(found))
    ensures PrevOver(views, 0, w + 1, q, tag, Some(found))
  {
    var x := FoundView(views[w], tag, found, w);
    forall k, i: nat | 0 <= k < w + 1 && Matching(views[k], tag, i) && SeqnumAt(views[k], i) <= q
      ensures SeqnumAt(views[k], i) <= found.seqnum
    {
      if k < w {
        ViewsOrdered(views, k, i, w, x);
      }
    }
  }

  // Views newer than the query's have nothing at or before it.
  lemma {:induction false} NothingNewer(views: seq<ViewIndex>, w: nat, q: nat, tag: nat)
    requires ValidViews(views) && w < |views| && ViewId(q) < w
    ensures PrevOver(views, w, w + 1, q, tag, None)
  {
    forall i: nat | Matching(views[w], tag, i)
      ensures SeqnumAt(views[w], i) > q
    {
      ViewOf(views[w], w, i);
      QueryView(q);
      assert (ViewId(q) + 1) * TWO48 <= w * TWO48;
    }
  }

  lemma {:induction false} PrevJoin(views: seq<ViewIndex>, w: nat, q: nat, tag: nat, r: Option<Found>)
    requires ValidViews(views) && 0 < w < |views| && PrevOver(views, w, w + 1, q, tag, None)
    ensures PrevOver(views, 0, w + 1, q, tag, r) <==> PrevOver(views, 0, w, q, tag, r)
  {
    if PrevOver(views, 0, w + 1, q, tag, r) && r.Some? {
      var k := r.value.view;
      var i := FoundView(views[k], tag, r.value, k);
      assert Matching(views[k], tag, i) && SeqnumAt(views[k], i) <= q;
    }
  }

  // Some view is in the family that FindPrev gets wrong.
  ghost predicate Wraps(views: seq<ViewIndex>, hi: nat, q: nat, tag: nat)
    requires hi <= |views|
  {
    exists k :: 0 <= k < hi && TailWraps(views[k].space, views[k].entries, q, tag)
  }

  // It is the view of the query.
  lemma {:induction false} WrapsAt(views: seq<ViewIndex>, k: nat, q: nat, tag: nat)
    requires ValidViews(views) && k < |views| && TailWraps(views[k].space, views[k].entries, q, tag)
    ensures ViewId(q) == k
  {
  }

  lemma {:induction false} WrapsBelow(views: seq<ViewIndex>, w: nat, q: nat, tag: nat)
    requires ValidViews(views) && w < |views| && (ViewId(q) < w || !TailWraps(views[w].space, views[w].entries, q, tag))
    ensures Wraps(views, w + 1, q, tag) <==> Wraps(views, w, q, tag)
    ensures ViewId(q) >= w ==> !Wraps(views, w, q, tag)
  {
    forall k | 0 <= k < w + 1 && TailWraps(views[k].space, views[k].entries, q, tag)
      ensures ViewId(q) == k
    {
      WrapsAt(views, k, q, tag);
    }
  }

  // What is found there lies past the query.
  lemma {:induction false} WrappedFound(views: seq<ViewIndex>, w: nat, q: nat, tag: nat, found: Option<Found>)
    requires ValidViews(views) && w < |views| && TailWraps(views[w].space, views[w].entries, q, tag)
    requires Latest(views[w].space, views[w].entries, tag, found)
    ensures !PrevOver(views, 0, w + 1, q, tag, found) && Wraps(views, w + 1, q, tag)
  {
    var x :| x > 0 && Has(views[w].entries, tag, x);
    var i :| 0 <= i < |views[w].entries| && views[w].entries[i].seqnum == x && Matches(views[w].entries[i], tag);
    assert JoinTwo32(views[w].space, views[w].entries[i].seqnum) <= found.value.seqnum;
  }

  lemma {:induction false} ChasePrev(views: seq<View>, find: (nat, Query) -> Option<Found>, mine: seq<ViewIndex>, w: nat,
                                     query: Query)
    requires Serves(views, find, mine, query) && ValidViews(mine) && w < |views|
    requires query.direction.ReadPrev?
    ensures PrevDone(mine, w + 1, query.seqnum, query.tag, ProgressOf(query, mine[w].progress), Chase(views, find, w, query))
    decreases w
  {
    var found := find(w, query);
    assert FindsMine(mine[w], query, found);
    PrevStep(views, find, w, query);
    if w > 0 {
      var next := OlderPrev(query, mine[w].progress);
      ServesOn(views, find, mine, query, next);
      ChasePrev(views, find, mine, w - 1, next);
      PrevChain(mine, w, query, found, Chase(views, find, w - 1, next));
    } else {
      PrevChain(mine, w, query, found, None);
    }
  }

  // The chain has ended with the answer over the views below hi, exactly outside the family.
  ghost predicate PrevDone(mine: seq<ViewIndex>, hi: nat, q: nat, tag: nat, progress: nat, r: Option<Result>)
    requires hi <= |mine|
  {
    && r.Some? && !r.value.ContinueResult? && r.value.progress == progress
    && (PrevOver(mine, 0, hi, q, tag, Answer(r.value)) <==> !Wraps(mine, hi, q, tag))
  }

  lemma {:induction false} PrevEnded(mine: seq<ViewIndex>, hi: nat, query: Query, now: nat, found: Option<Found>)
    requires hi <= |mine|
    requires PrevOver(mine, 0, hi, query.seqnum, query.tag, found) <==> !Wraps(mine, hi, query.seqnum, query.tag)
    ensures PrevDone(mine, hi, query.seqnum, query.tag, ProgressOf(query, now), Some(Ended(query, now, found)))
  {
  }

  // What one view makes of the answer of the older ones.
  function PrevResult(w: nat, query: Query, now: nat, found: Option<Found>, older: Option<Result>): Option<Result> {
    if ViewId(query.seqnum) >= w && found.Some? then Some(Ended(query, now, found))
    else if w > 0 then older
    else Some(Ended(query, now, None))
  }

  lemma {:induction false} PrevChain(mine: seq<ViewIndex>, w: nat, query: Query, found: Option<Found>, older: Option<Result>)
    requires ValidViews(mine) && w < |mine|
    requires FoundPrev(mine[w].space, mine[w].entries, query.seqnum, query.tag, found)
    requires w > 0 ==> PrevDone(mine, w, query.seqnum, query.tag, ProgressOf(query, mine[w].progress), older)
    ensures PrevDone(mine, w + 1, query.seqnum, query.tag, ProgressOf(query, mine[w].progress),
                     PrevResult(w, query, mine[w].progress, found, older))
  {
    if ViewId(query.seqnum) >= w && found.Some? {
      PrevHere(mine, w, query.seqnum, query.tag, found);
      PrevEnded(mine, w + 1, query, mine[w].progress, found);
    } else {
      PrevNotHere(mine, w, query.seqnum, query.tag, found);
      if w > 0 {
        PrevJoin(mine, w, query.seqnum, query.tag, Answer(older.value));
      } else {
        PrevEnded(mine, 1, query, mine[0].progress, None);
      }
    }
  }

  // The query as it comes to the next older view.
  function OlderPrev(query: Query, now: nat): Query {
    query.(initial := false, progress := ProgressOf(query, now), prev := if query.initial then None else query.prev)
  }

  lemma {:induction false} PrevStep(views: seq<View>, find: (nat, Query) -> Option<Found>, w: nat, query: Query)
    requires w < |views| && query.direction.ReadPrev?
    ensures var now := views[w](query.userLogspace).progress;
            Chase(views, find, w, query)
            == PrevResult(w, query, now, find(w, query), if w > 0 then Chase(views, find, w - 1, OlderPrev(query, now)) else None)
  {
  }

  // The chain ends in this view.
  lemma {:induction false} PrevHere(mine: seq<ViewIndex>, w: nat, q: nat, tag: nat, found: Option<Found>)
    requires ValidViews(mine) && w < |mine| && w <= ViewId(q) && found.Some?
    requires FoundPrev(mine[w].space, mine[w].entries, q, tag, found)
    ensures PrevOver(mine, 0, w + 1, q, tag, found) <==> !Wraps(mine, w + 1, q, tag)
  {
    if TailWraps(mine[w].space, mine[w].entries, q, tag) {
      WrappedFound(mine, w, q, tag, found);
    } else {
      WrapsBelow(mine, w, q, tag);
      PrevFound(mine, w, q, tag, found.value);
    }
  }

  // The chain goes on to older views.
  lemma {:induction false} PrevNotHere(mine: seq<ViewIndex>, w: nat, q: nat, tag: nat, found: Option<Found>)
    requires ValidViews(mine) && w < |mine| && (ViewId(q) < w || found.None?)
    requires FoundPrev(mine[w].space, mine[w].entries, q, tag, found)
    ensures PrevOver(mine, w, w + 1, q, tag, None) && (Wraps(mine, w + 1, q, tag) <==> Wraps(mine, w, q, tag))
  {
    WrapsBelow(mine, w, q, tag);
    if ViewId(q) < w {
      NothingNewer(mine, w, q, tag);
    }
  }

  /** ReadPrev over views: the greatest matching sequence number at most the query's over all views,
      exactly outside the family that FindPrev gets wrong. */
  lemma {:induction false} ReadPrevRight(views: seq<View>, find: (nat, Query) -> Option<Found>, mine: seq<ViewIndex>,
                                         query: Query)
    requires Serves(views, find, mine, query) && ValidViews(mine) && views != []
    requires query.direction.ReadPrev? && query.initial
    ensures PrevDone(mine, |views|, query.seqnum, query.tag, mine[|views| - 1].progress, Chase(views, find, |views| - 1, query))
  {
    ChasePrev(views, find, mine, |views| - 1, query);
  }
}
