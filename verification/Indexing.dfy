/**
 Index: an engine's index of one log space.

 Index data comes from the storages, metalogs from the sequencer, in any order.
 An entry is indexed once all data up to the end of its cut is there, so what is
 indexed is always the log up to a cut.  Queries wait until the metalog position
 they have already seen is indexed.
 */
module Indexing {
  import opened Options
  import opened MetaLogs
  import opened Lookup
  import opened Queries

  const MAX_METALOG_POSITION: nat := 0xffff_ffff
  const BLOCKING_QUERY_TIMEOUT: nat := 1_000_000

  // ------------------------------------------------------------------------
  // Entries by user log space

  // The log in order: entry s has sequence number s.
  ghost predicate InOrder(entries: seq<IndexEntry>) {
    && |entries| <= TWO32
    && forall s :: 0 <= s < |entries| ==> entries[s].seqnum == s && EMPTY_TAG !in entries[s].tags
  }

  lemma {:induction false} ForUserIndexable(entries: seq<IndexEntry>, u: nat)
    requires InOrder(entries)
    ensures Indexable(ForUser(entries, u))
    ensures forall j :: 0 <= j < |ForUser(entries, u)| ==> ForUser(entries, u)[j].seqnum < |entries|
  {
    if entries != [] {
      ForUserIndexable(entries[..|entries| - 1], u);
    }
  }

  ghost predicate IndexedUser(index: map<nat, PerSpaceIndex>, entries: seq<IndexEntry>, u: nat) {
    if u in index then Indexes(index[u], ForUser(entries, u)) else ForUser(entries, u) == []
  }

  // The index holds exactly these entries.
  ghost predicate IndexIs(index: map<nat, PerSpaceIndex>, entries: seq<IndexEntry>) {
    forall u: nat :: IndexedUser(index, entries, u)
  }

  method AddToIndex(index: map<nat, PerSpaceIndex>, e: IndexEntry, ghost entries: seq<IndexEntry>)
      returns (index': map<nat, PerSpaceIndex>)
    requires IndexIs(index, entries) && InOrder(entries + [e])
    ensures IndexIs(index', entries + [e])
  {
    var u := e.userLogspace;
    ghost var after := entries + [e];
    assert after[..|after| - 1] == entries;
    assert ForUser(after, u) == ForUser(entries, u) + [e];
    ForUserIndexable(after, u);
    assert IndexedUser(index, entries, u);
    var ps := if u in index then index[u] else EMPTY_INDEX;
    ps := Add(ps, e, ForUser(entries, u));
    index' := index[u := ps];
    forall v: nat
      ensures IndexedUser(index', after, v)
    {
      assert IndexedUser(index, entries, v);
      assert v != u ==> ForUser(after, v) == ForUser(entries, v);
    }
  }

  // ------------------------------------------------------------------------
  // How far the index is, as a function of what has arrived

  // The largest k of the first `a` cuts whose entries all lie below d.
  function Reach(log: seq<MetaLog>, a: nat, d: nat): (k: nat)
    requires a <= |log|
    ensures k <= a && Total(log, k) <= d
  {
    if a == 0 || Total(log, a) <= d then a else Reach(log, a - 1, d)
  }

  lemma {:induction false} ReachIs(log: seq<MetaLog>, a: nat, d: nat, k: nat)
    requires k <= a <= |log| && Total(log, k) <= d && (k < a ==> d < Total(log, k + 1))
    ensures Reach(log, a, d) == k
  {
    if k < a {
      SumsMonotone(log, k + 1, a);
      ReachIs(log, a - 1, d, k);
    }
  }

  datatype Core = Core(
    cuts: seq<(nat, nat)>,
    received: map<nat, IndexEntry>,
    dataReceived: nat,
    indexed: nat,
    indexedMetalog: nat)

  ghost predicate FirstMissing(have: set<nat>, d: nat) {
    d !in have && forall s :: 0 <= s < d ==> s in have
  }

  ghost predicate QueueIs(cuts: seq<(nat, nat)>, log: seq<MetaLog>, k: nat)
    requires k <= |log|
  {
    |cuts| == |log| - k && forall j :: 0 <= j < |cuts| ==> cuts[j] == (k + j, Total(log, k + j + 1))
  }

  ghost predicate ReceivedIs(received: map<nat, IndexEntry>, truth: seq<IndexEntry>, have: set<nat>, indexed: nat) {
    && (forall s :: s in received <==> s in have && s >= indexed)
    && (forall s :: s in received ==> s < |truth| && received[s] == truth[s])
  }

  // Somewhere on the way: everything indexed is complete, there may be more to index.
  ghost predicate Partial(c: Core, truth: seq<IndexEntry>, log: seq<MetaLog>, have: set<nat>) {
    && c.indexedMetalog <= |log| && c.indexed == Total(log, c.indexedMetalog)
    && c.indexed <= c.dataReceived <= |truth| && (forall s :: 0 <= s < c.dataReceived ==> s in have)
    && QueueIs(c.cuts, log, c.indexedMetalog)
    && ReceivedIs(c.received, truth, have, c.indexed)
  }

  // All there is to index is indexed.
  ghost predicate Complete(c: Core, truth: seq<IndexEntry>, log: seq<MetaLog>, have: set<nat>) {
    && Partial(c, truth, log, have)
    && FirstMissing(have, c.dataReceived)
    && c.indexedMetalog == Reach(log, |log|, c.dataReceived)
  }

  /** The index depends only on which data and how many metalogs have arrived, not on their order. */
  lemma {:induction false} ArrivalOrderIrrelevant(a: Core, b: Core, truth: seq<IndexEntry>, log: seq<MetaLog>,
                                                  have: set<nat>)
    requires Complete(a, truth, log, have) && Complete(b, truth, log, have)
    ensures a == b
  {
    assert a.dataReceived == b.dataReceived;
    assert a.cuts == b.cuts;
    assert a.received == b.received;
  }

  // Data is never used before its cut, and is used as soon as the cut is complete.
  lemma {:induction false} IndexedIff(c: Core, truth: seq<IndexEntry>, log: seq<MetaLog>, have: set<nat>, k: nat)
    requires Complete(c, truth, log, have) && k <= |log|
    ensures k <= c.indexedMetalog <==> forall s :: 0 <= s < Total(log, k) ==> s in have
  {
    var all := forall s :: 0 <= s < Total(log, k) ==> s in have;
    if k <= c.indexedMetalog {
      SumsMonotone(log, k, c.indexedMetalog);
      assert all;
    }
    if all {
      assert Total(log, k) <= c.dataReceived;
      ReachAtLeast(log, |log|, c.dataReceived, k);
    }
  }

  lemma {:induction false} ReachAtLeast(log: seq<MetaLog>, a: nat, d: nat, k: nat)
    requires k <= a <= |log| && Total(log, k) <= d
    ensures k <= Reach(log, a, d)
  {
    if a > 0 && Total(log, a) > d {
      ReachAtLeast(log, a - 1, d, k);
    }
  }

  // ------------------------------------------------------------------------
  // Queries

  datatype SpaceState = Normal | Frozen | Finalized

  // A query is not answered from less of the log than its caller has seen.
  predicate Reached(space: nat, query: Query, p: nat) {
    query.initial && ViewId(query.progress) == SpaceView(space) ==> query.progress % TWO32 <= p
  }

  // r answers the query from the log up to metalog position p, where `found` is the match.
  ghost predicate Answers(space: nat, truth: seq<IndexEntry>, log: seq<MetaLog>, r: Result, p: nat, query: Query,
                          found: Option<Found>)
  {
    && p <= |log| && Total(log, p) <= |truth|
    && FoundFor(space, truth[..Total(log, p)], query, found)
    && ProcessQuery(SpaceView(space), JoinTwo32(space, p), query, found) == Some(r)
  }

  // r gives up on a blocking read of this view that nothing up to metalog position p matches.
  ghost predicate GivesUp(space: nat, truth: seq<IndexEntry>, log: seq<MetaLog>, r: Result, p: nat, query: Query) {
    && p <= |log| && Total(log, p) <= |truth| && Blockable(space, query)
    && FoundFor(space, truth[..Total(log, p)], query, None)
    && r == EmptyResult(ProgressOf(query, JoinTwo32(space, p)), query)
  }

  ghost predicate AnswersAt(space: nat, truth: seq<IndexEntry>, log: seq<MetaLog>,
                            r: Result, p: nat, query: Query, found: Option<Found>)
  {
    Answers(space, truth, log, r, p, query, found) || (found == None && GivesUp(space, truth, log, r, p, query))
  }

  ghost predicate AnswersFrom(space: nat, truth: seq<IndexEntry>, log: seq<MetaLog>, r: Result, p: nat, query: Query) {
    exists found: Option<Found> :: Answers(space, truth, log, r, p, query, found)
  }

  // From all its caller has seen, unless the query was processed before its time.
  ghost predicate Timely(space: nat, query: Query, p: nat, forced: set<Query>) {
    query !in forced ==> Reached(space, query, p)
  }

  ghost predicate RightAnswer(space: nat, truth: seq<IndexEntry>, log: seq<MetaLog>, r: Result, query: Query,
                              forced: set<Query>)
  {
    exists p: nat, found: Option<Found> :: AnswersAt(space, truth, log, r, p, query, found) && Timely(space, query, p, forced)
  }

  // Each result answers the query asked.
  ghost predicate RightAnswers(space: nat, truth: seq<IndexEntry>, log: seq<MetaLog>, rs: seq<Result>, asked: seq<Query>,
                               forced: set<Query>)
  {
    |rs| == |asked| && forall j :: 0 <= j < |rs| ==> RightAnswer(space, truth, log, rs[j], asked[j], forced)
  }

  predicate Named(r: Result, query: Query) {
    r.query == query || (r.ContinueResult? && query.direction.ReadNextB? && r.query == query.(direction := ReadNext))
  }

  /** A result names the query it answers; only a blocking read that goes on to an older view is named
      as a plain one. */
  lemma {:induction false} AnswerNames(space: nat, truth: seq<IndexEntry>, log: seq<MetaLog>, r: Result, query: Query,
                                       forced: set<Query>)
    requires RightAnswer(space, truth, log, r, query, forced)
    ensures Named(r, query)
  {
    var p: nat, found: Option<Found> :| AnswersAt(space, truth, log, r, p, query, found) && Timely(space, query, p, forced);
    ProcessNames(SpaceView(space), JoinTwo32(space, p), query, found);
  }

  lemma {:induction false} ProcessNames(view: nat, now: nat, query: Query, found: Option<Found>)
    ensures var a := ProcessQuery(view, now, query, found);
            a.Some? ==> Named(a.value, query)
  {
  }

  lemma {:induction false} OneMoreAnswer(space: nat, truth: seq<IndexEntry>, log: seq<MetaLog>, rs: seq<Result>,
                                         asked: seq<Query>, forced: set<Query>, r: Result, p: nat, query: Query,
                                         found: Option<Found>)
    requires RightAnswers(space, truth, log, rs, asked, forced)
    requires AnswersAt(space, truth, log, r, p, query, found) && Timely(space, query, p, forced)
    ensures RightAnswers(space, truth, log, rs + [r], asked + [query], forced)
  {
    assert RightAnswer(space, truth, log, r, query, forced);
  }

  lemma {:induction false} ForcedMore(space: nat, truth: seq<IndexEntry>, log: seq<MetaLog>, rs: seq<Result>,
                                      asked: seq<Query>, forced: set<Query>, forced': set<Query>)
    requires RightAnswers(space, truth, log, rs, asked, forced) && forced <= forced'
    ensures RightAnswers(space, truth, log, rs, asked, forced')
  {
    forall j | 0 <= j < |rs|
      ensures RightAnswer(space, truth, log, rs[j], asked[j], forced')
    {
      var p: nat, found: Option<Found> :| AnswersAt(space, truth, log, rs[j], p, asked[j], found)
                                          && Timely(space, asked[j], p, forced);
      assert Timely(space, asked[j], p, forced');
    }
  }

  lemma {:induction false} AnswersStay(space: nat, truth: seq<IndexEntry>, log: seq<MetaLog>, m: MetaLog,
                                       rs: seq<Result>, asked: seq<Query>, forced: set<Query>)
    requires RightAnswers(space, truth, log, rs, asked, forced)
    ensures RightAnswers(space, truth, log + [m], rs, asked, forced)
  {
    forall j | 0 <= j < |rs|
      ensures RightAnswer(space, truth, log + [m], rs[j], asked[j], forced)
    {
      var p: nat, found: Option<Found> :| AnswersAt(space, truth, log, rs[j], p, asked[j], found)
                                          && Timely(space, asked[j], p, forced);
      PrefixSums(log, [m], p);
      assert AnswersAt(space, truth, log + [m], rs[j], p, asked[j], found);
    }
  }

  // A waiting blocking read: nothing indexed matches it.
  ghost predicate Waits(space: nat, entries: seq<IndexEntry>, p: nat, query: Query, forced: set<Query>) {
    && MayWait(space, p, query, forced)
    && NextRight(space, ForUser(entries, query.userLogspace), query.seqnum, query.tag, None)
  }

  // A blocking read for this view.
  ghost predicate Blockable(space: nat, query: Query) {
    query.direction.ReadNextB? && query.initial && ViewId(query.seqnum) == SpaceView(space)
  }

  ghost predicate MayWait(space: nat, p: nat, query: Query, forced: set<Query>) {
    Blockable(space, query) && Timely(space, query, p, forced)
  }

  // The queries of a waiting list.
  ghost function Questions<K>(s: seq<(K, Query)>): seq<Query> {
    seq(|s|, j requires 0 <= j < |s| => s[j].1)
  }

  lemma {:induction false} QuestionsMore<K>(s: seq<(K, Query)>, t: seq<(K, Query)>)
    ensures Questions(s + t) == Questions(s) + Questions(t)
  {
  }

  // All queries not handed out yet: answered, blocking or waiting.
  ghost function OpenQueries(asked: seq<Query>, blocking: seq<(int, Query)>, pending: seq<(nat, Query)>): multiset<Query> {
    multiset(asked) + multiset(Questions(blocking)) + multiset(Questions(pending))
  }

  lemma {:induction false} OpenNew(asked: seq<Query>, blocking: seq<(int, Query)>, pending: seq<(nat, Query)>, now: int,
                                   query: Query)
    ensures OpenQueries(asked + [query], blocking, pending) == OpenQueries(asked, blocking, pending) + multiset{query}
    ensures OpenQueries(asked, blocking + [(now, query)], pending) == OpenQueries(asked, blocking, pending) + multiset{query}
  {
    QuestionsMore(blocking, [(now, query)]);
  }

  lemma {:induction false} OpenFirst(asked: seq<Query>, blocking: seq<(int, Query)>, pending: seq<(nat, Query)>)
    requires pending != []
    ensures OpenQueries(asked, blocking, pending) == OpenQueries(asked, blocking, pending[1..]) + multiset{pending[0].1}
  {
    assert pending == [pending[0]] + pending[1..];
    QuestionsMore([pending[0]], pending[1..]);
    assert Questions([pending[0]]) == [pending[0].1];
  }

  lemma {:induction false} OpenInsert(asked: seq<Query>, blocking: seq<(int, Query)>, pending: seq<(nat, Query)>,
                                      x: (nat, Query))
    ensures OpenQueries(asked, blocking, InsertPending(pending, x)) == OpenQueries(asked, blocking, pending) + multiset{x.1}
  {
    InsertQuestions(pending, x);
  }

  lemma {:induction false} OpenRetried(space: nat, entries: seq<IndexEntry>, asked: seq<Query>, blocking: seq<(int, Query)>,
                                       pending: seq<(nat, Query)>, now: int)
    ensures OpenQueries(asked + Questions(Finished(space, entries, blocking, now)), Kept(space, entries, blocking, now), pending)
         == OpenQueries(asked, blocking, pending)
  {
    KeptOrFinished(space, entries, blocking, now);
  }

  // The result answers its query from the log up to position p; or it gives up on one that had been
  // waiting for too long.
  ghost predicate AnswerNow(space: nat, truth: seq<IndexEntry>, log: seq<MetaLog>, p: nat, r: Result, query: Query,
                            waiting: seq<(int, Query)>, now: int)
  {
    || AnswersFrom(space, truth, log, r, p, query)
    || (GivesUp(space, truth, log, r, p, query) && Expired(waiting, query, now))
  }

  ghost predicate Expired(waiting: seq<(int, Query)>, query: Query, now: int) {
    exists x :: x in waiting && x.1 == query && now - x.0 >= BLOCKING_QUERY_TIMEOUT
  }

  // The same of all results from the n-th on.
  ghost predicate AnswersSince(space: nat, truth: seq<IndexEntry>, log: seq<MetaLog>, p: nat, rs: seq<Result>,
                               asked: seq<Query>, n: nat, waiting: seq<(int, Query)>, now: int)
  {
    && n <= |rs| == |asked|
    && forall j :: n <= j < |rs| ==> AnswerNow(space, truth, log, p, rs[j], asked[j], waiting, now)
  }

  lemma {:induction false} OneMoreSince(space: nat, truth: seq<IndexEntry>, log: seq<MetaLog>, p: nat, rs: seq<Result>,
                                        asked: seq<Query>, n: nat, waiting: seq<(int, Query)>, now: int, r: Result,
                                        query: Query)
    requires AnswersSince(space, truth, log, p, rs, asked, n, waiting, now)
    requires AnswerNow(space, truth, log, p, r, query, waiting, now)
    ensures AnswersSince(space, truth, log, p, rs + [r], asked + [query], n, waiting, now)
  {
  }

  lemma {:induction false} SinceJoins(space: nat, truth: seq<IndexEntry>, log: seq<MetaLog>, p: nat, rs: seq<Result>,
                                      asked: seq<Query>, n: nat, m: nat, waiting: seq<(int, Query)>, now: int,
                                      rs': seq<Result>, asked': seq<Query>)
    requires AnswersSince(space, truth, log, p, rs, asked, n, waiting, now) && m == |rs|
    requires rs <= rs' && asked <= asked' && AnswersSince(space, truth, log, p, rs', asked', m, [], now)
    ensures AnswersSince(space, truth, log, p, rs', asked', n, waiting, now)
  {
    forall j | n <= j < |rs'|
      ensures AnswerNow(space, truth, log, p, rs'[j], asked'[j], waiting, now)
    {
      if j < m {
        assert AnswerNow(space, truth, log, p, rs[j], asked[j], waiting, now);
      } else {
        assert AnswerNow(space, truth, log, p, rs'[j], asked'[j], [], now);
      }
    }
  }

  // Of a list by position, what is left once everything up to position p is taken from the front.
  ghost predicate Left(rest: seq<(nat, Query)>, s: seq<(nat, Query)>, p: nat) {
    && |rest| <= |s| && rest == s[|s| - |rest|..]
    && forall j :: 0 <= j < |s| - |rest| ==> s[j].0 <= p
  }

  lemma {:induction false} LeftTail(rest: seq<(nat, Query)>, s: seq<(nat, Query)>, p: nat)
    requires Left(rest, s, p) && rest != [] && rest[0].0 <= p
    ensures Left(rest[1..], s, p)
  {
  }

  // A blocking read goes on waiting: nothing matches it and it has not waited for too long.
  ghost predicate Keeps(space: nat, entries: seq<IndexEntry>, x: (int, Query), now: int) {
    NextRight(space, ForUser(entries, x.1.userLogspace), x.1.seqnum, x.1.tag, None) && now - x.0 < BLOCKING_QUERY_TIMEOUT
  }

  ghost function Kept(space: nat, entries: seq<IndexEntry>, s: seq<(int, Query)>, now: int): seq<(int, Query)> {
    if s == [] then []
    else
      var last := s[|s| - 1];
      Kept(space, entries, s[..|s| - 1], now) + if Keeps(space, entries, last, now) then [last] else []
  }

  ghost function Finished(space: nat, entries: seq<IndexEntry>, s: seq<(int, Query)>, now: int): seq<(int, Query)> {
    if s == [] then []
    else
      var last := s[|s| - 1];
      Finished(space, entries, s[..|s| - 1], now) + if Keeps(space, entries, last, now) then [] else [last]
  }

  // What retrying blocking reads makes of the queries asked and the reads that wait on.
  ghost predicate Retried(space: nat, entries: seq<IndexEntry>, s: seq<(int, Query)>, now: int, asked: seq<Query>,
                          asked': seq<Query>, unfinished: seq<(int, Query)>)
  {
    && unfinished == Kept(space, entries, s, now)
    && asked' == asked + Questions(Finished(space, entries, s, now))
  }

  lemma {:induction false} RetryStep(space: nat, entries: seq<IndexEntry>, s: seq<(int, Query)>, i: nat, now: int,
                                     asked: seq<Query>, asked': seq<Query>, unfinished: seq<(int, Query)>)
    requires i < |s| && Retried(space, entries, s[..i], now, asked, asked', unfinished)
    ensures var keeps := Keeps(space, entries, s[i], now);
            Retried(space, entries, s[..i + 1], now, asked, if keeps then asked' else asked' + [s[i].1],
                    if keeps then unfinished + [s[i]] else unfinished)
  {
    assert s[..i + 1][..i] == s[..i];
    QuestionsMore(Finished(space, entries, s[..i], now), [s[i]]);
  }

  lemma {:induction false} KeptWait(space: nat, entries: seq<IndexEntry>, p: nat, s: seq<(int, Query)>, now: int,
                                    forced: set<Query>)
    requires forall j :: 0 <= j < |s| ==> MayWait(space, p, s[j].1, forced)
    ensures forall j :: 0 <= j < |Kept(space, entries, s, now)| ==>
              Waits(space, entries, p, Kept(space, entries, s, now)[j].1, forced)
  {
    if s != [] {
      KeptWait(space, entries, p, s[..|s| - 1], now, forced);
    }
  }

  // No blocking read has waited for too long.
  predicate NoneExpired(blocking: seq<(int, Query)>, now: int) {
    forall j :: 0 <= j < |blocking| ==> now - blocking[j].0 < BLOCKING_QUERY_TIMEOUT
  }

  /** A blocking read waits on exactly if nothing matches it and its time is not up. */
  lemma {:induction false} KeptIff(space: nat, entries: seq<IndexEntry>, s: seq<(int, Query)>, now: int)
    ensures NoneExpired(Kept(space, entries, s, now), now)
    ensures forall x :: x in Kept(space, entries, s, now) <==>
              && x in s && now - x.0 < BLOCKING_QUERY_TIMEOUT
              && NextRight(space, ForUser(entries, x.1.userLogspace), x.1.seqnum, x.1.tag, None)
  {
    if s != [] {
      var front, last := s[..|s| - 1], s[|s| - 1];
      KeptIff(space, entries, front, now);
      assert s == front + [last];
    }
  }

  lemma {:induction false} KeptOrFinished(space: nat, entries: seq<IndexEntry>, s: seq<(int, Query)>, now: int)
    ensures multiset(Questions(Kept(space, entries, s, now))) + multiset(Questions(Finished(space, entries, s, now)))
         == multiset(Questions(s))
  {
    if s == [] {
      assert Questions(s) == [];
    } else {
      var front, last := s[..|s| - 1], s[|s| - 1];
      KeptOrFinished(space, entries, front, now);
      assert s == front + [last];
      QuestionsMore(front, [last]);
      QuestionsMore(Kept(space, entries, front, now), [last]);
      QuestionsMore(Finished(space, entries, front, now), [last]);
      assert Questions([last]) == [last.1];
      if Keeps(space, entries, last, now) {
        assert Finished(space, entries, s, now) == Finished(space, entries, front, now);
      } else {
        assert Kept(space, entries, s, now) == Kept(space, entries, front, now);
      }
    }
  }

  // std::multimap::insert
  function InsertPending(s: seq<(nat, Query)>, x: (nat, Query)): seq<(nat, Query)> {
    if s == [] || s[|s| - 1].0 <= x.0 then s + [x] else InsertPending(s[..|s| - 1], x) + [s[|s| - 1]]
  }

  /** A query goes behind those that wait for no later position, so queries for one position keep their order. */
  lemma {:induction false} InsertPlace(s: seq<(nat, Query)>, x: (nat, Query)) returns (i: nat)
    ensures i <= |s| && InsertPending(s, x) == s[..i] + [x] + s[i..]
    ensures (i > 0 ==> s[i - 1].0 <= x.0) && forall j :: i <= j < |s| ==> s[j].0 > x.0
  {
    if s == [] || s[|s| - 1].0 <= x.0 {
      i := |s|;
    } else {
      var front := s[..|s| - 1];
      i := InsertPlace(front, x);
      assert s[i..] == front[i..] + [s[|s| - 1]];
    }
  }

  ghost predicate ByPosition(s: seq<(nat, Query)>) {
    forall i, j :: 0 <= i < j < |s| ==> s[i].0 <= s[j].0
  }

  // Every waiting query waits for a position that is not indexed, or for the end of its view.
  ghost predicate PendingIs(space: nat, s: seq<(nat, Query)>, p: nat) {
    && ByPosition(s)
    && forall j :: 0 <= j < |s| ==> p < s[j].0 && PendingRight(space, s[j])
  }

  lemma {:induction false} PendingRest(space: nat, s: seq<(nat, Query)>, p: nat)
    requires PendingIs(space, s, p) && s != []
    ensures p < s[0].0 && PendingRight(space, s[0]) && PendingIs(space, s[1..], p)
  {
  }

  ghost predicate PendingRight(space: nat, x: (nat, Query)) {
    && (x.1.direction.ReadNextB? ==> x.1.initial)
    && if x.1.initial then ViewId(x.1.progress) == SpaceView(space) && x.0 == x.1.progress % TWO32
       else x.0 == MAX_METALOG_POSITION
  }

  lemma {:induction false} InsertMembers(s: seq<(nat, Query)>, x: (nat, Query))
    ensures |InsertPending(s, x)| == |s| + 1
    ensures forall j :: 0 <= j < |InsertPending(s, x)| ==> InsertPending(s, x)[j] == x || InsertPending(s, x)[j] in s
    ensures x in InsertPending(s, x) && forall j :: 0 <= j < |s| ==> s[j] in InsertPending(s, x)
  {
    if s != [] && s[|s| - 1].0 > x.0 {
      var front, last := s[..|s| - 1], s[|s| - 1];
      InsertMembers(front, x);
      forall j | 0 <= j < |s|
        ensures s[j] in InsertPending(s, x)
      {
        if j < |front| {
          assert front[j] in InsertPending(front, x);
        }
      }
    }
  }

  lemma {:induction false} InsertQuestions(s: seq<(nat, Query)>, x: (nat, Query))
    ensures multiset(Questions(InsertPending(s, x))) == multiset(Questions(s)) + multiset{x.1}
  {
    if s == [] || s[|s| - 1].0 <= x.0 {
      QuestionsMore(s, [x]);
    } else {
      var front, last := s[..|s| - 1], s[|s| - 1];
      InsertQuestions(front, x);
      QuestionsMore(InsertPending(front, x), [last]);
      QuestionsMore(front, [last]);
      assert s == front + [last];
    }
  }

  // ------------------------------------------------------------------------
  // The end of the view

  // A blocking read for this view that nothing matches.
  ghost predicate IsStuck(space: nat, entries: seq<IndexEntry>, query: Query) {
    Blockable(space, query) && NextRight(space, ForUser(entries, query.userLogspace), query.seqnum, query.tag, None)
  }

  ghost function Stuck(space: nat, entries: seq<IndexEntry>, s: seq<(nat, Query)>): seq<(nat, Query)> {
    if s == [] then []
    else
      var last := s[|s| - 1];
      Stuck(space, entries, s[..|s| - 1]) + if IsStuck(space, entries, last.1) then [last] else []
  }

  ghost function NotStuck(space: nat, entries: seq<IndexEntry>, s: seq<(nat, Query)>): seq<(nat, Query)> {
    if s == [] then []
    else
      var last := s[|s| - 1];
      NotStuck(space, entries, s[..|s| - 1]) + if IsStuck(space, entries, last.1) then [] else [last]
  }

  ghost function Timed(s: seq<(nat, Query)>, now: int): seq<(int, Query)> {
    seq(|s|, j requires 0 <= j < |s| => (now, s[j].1))
  }

  lemma {:induction false} StuckStep(space: nat, entries: seq<IndexEntry>, s: seq<(nat, Query)>, i: nat, now: int)
    requires i < |s|
    ensures var stuck := IsStuck(space, entries, s[i].1);
            && Questions(NotStuck(space, entries, s[..i + 1]))
            == Questions(NotStuck(space, entries, s[..i])) + (if stuck then [] else [s[i].1])
            && Timed(Stuck(space, entries, s[..i + 1]), now)
            == Timed(Stuck(space, entries, s[..i]), now) + if stuck then [(now, s[i].1)] else []
  {
    assert s[..i + 1][..i] == s[..i];
    QuestionsMore(NotStuck(space, entries, s[..i]), [s[i]]);
    if IsStuck(space, entries, s[i].1) {
      assert NotStuck(space, entries, s[..i + 1]) == NotStuck(space, entries, s[..i]);
    } else {
      assert Stuck(space, entries, s[..i + 1]) == Stuck(space, entries, s[..i]);
    }
  }

  // What processing waiting queries makes of the queries asked and blocking.
  ghost predicate Split(space: nat, entries: seq<IndexEntry>, s: seq<(nat, Query)>, now: int, asked: seq<Query>,
                        blocking: seq<(int, Query)>, asked': seq<Query>, blocking': seq<(int, Query)>)
  {
    && asked' == asked + Questions(NotStuck(space, entries, s))
    && blocking' == blocking + Timed(Stuck(space, entries, s), now)
  }

  lemma {:induction false} SplitStep(space: nat, entries: seq<IndexEntry>, s: seq<(nat, Query)>, i: nat, now: int,
                                     asked: seq<Query>, blocking: seq<(int, Query)>, asked': seq<Query>,
                                     blocking': seq<(int, Query)>)
    requires i < |s| && Split(space, entries, s[..i], now, asked, blocking, asked', blocking')
    ensures var stuck := IsStuck(space, entries, s[i].1);
            Split(space, entries, s[..i + 1], now, asked, blocking, if stuck then asked' else asked' + [s[i].1],
                  if stuck then blocking' + [(now, s[i].1)] else blocking')
  {
    StuckStep(space, entries, s, i, now);
  }

  // The waiting queries that the end of the view does not wait for.
  ghost function Impatient(s: seq<(nat, Query)>): set<Query> {
    set x | x in s && x.1.initial :: x.1
  }

  lemma {:induction false} ImpatientHas(s: seq<(nat, Query)>, i: nat)
    requires i < |s|
    ensures s[i].1.initial ==> s[i].1 in Impatient(s)
  {
    assert s[i] in s;
  }

  predicate NoneInitial(s: seq<(nat, Query)>) {
    forall j :: 0 <= j < |s| ==> !s[j].1.initial
  }

  ghost predicate AllInTime(space: nat, p: nat, rs: seq<Result>, asked: seq<Query>, n: nat) {
    |rs| == |asked| && forall j :: n <= j < |rs| ==> OneInTime(space, p, rs[j], asked[j])
  }

  ghost predicate OneInTime(space: nat, p: nat, r: Result, query: Query) {
    Reached(space, query, p) && query.progress <= r.progress
  }

  /** When progress comes from metalogs that exist, no initial query waits if and only if the first
      waiting query, if any, waits for the end of the view: the source's debug assertion. */
  lemma {:induction false} NoneInitialIff(space: nat, s: seq<(nat, Query)>, p: nat)
    requires PendingIs(space, s, p) && forall j :: 0 <= j < |s| && s[j].1.initial ==> s[j].0 < MAX_METALOG_POSITION
    ensures NoneInitial(s) <==> s == [] || s[0].0 == MAX_METALOG_POSITION
  {
    forall j | 0 <= j < |s|
      ensures PendingRight(space, s[j]) && s[0].0 <= s[j].0
    {
    }
  }

  // A result is in time exactly when its query did not wait for a position.
  lemma {:induction false} InTimeIff(space: nat, truth: seq<IndexEntry>, log: seq<MetaLog>, p: nat, x: (nat, Query), r: Result)
    requires PendingRight(space, x) && p < x.0 && AnswersFrom(space, truth, log, r, p, x.1)
    ensures OneInTime(space, p, r, x.1) <==> !x.1.initial
  {
  }

  lemma {:induction false} NoneInitialStuck(space: nat, entries: seq<IndexEntry>, s: seq<(nat, Query)>)
    requires NoneInitial(s)
    ensures Stuck(space, entries, s) == []
  {
    if s != [] {
      NoneInitialStuck(space, entries, s[..|s| - 1]);
    }
  }

  lemma {:induction false} AllNotStuck(space: nat, entries: seq<IndexEntry>, s: seq<(nat, Query)>)
    requires Stuck(space, entries, s) == []
    ensures NotStuck(space, entries, s) == s
  {
    if s != [] {
      LastNotStuck(space, entries, s);
      AllNotStuck(space, entries, s[..|s| - 1]);
      FrontAndLast(s);
    }
  }

  lemma {:induction false} LastNotStuck(space: nat, entries: seq<IndexEntry>, s: seq<(nat, Query)>)
    requires s != [] && Stuck(space, entries, s) == []
    ensures Stuck(space, entries, s[..|s| - 1]) == []
    ensures NotStuck(space, entries, s) == NotStuck(space, entries, s[..|s| - 1]) + [s[|s| - 1]]
  {
    assert !IsStuck(space, entries, s[|s| - 1].1);
  }

  lemma {:induction false} FrontAndLast<T>(s: seq<T>)
    requires s != []
    ensures s[..|s| - 1] + [s[|s| - 1]] == s
  {
  }

  lemma {:induction false} NotStuckIn(space: nat, entries: seq<IndexEntry>, s: seq<(nat, Query)>)
    ensures forall x :: x in NotStuck(space, entries, s) ==> x in s
  {
    if s != [] {
      NotStuckIn(space, entries, s[..|s| - 1]);
    }
  }

  lemma {:induction false} EndIff(space: nat, truth: seq<IndexEntry>, log: seq<MetaLog>, p: nat, s: seq<(nat, Query)>,
                                  now: int, rs: seq<Result>, asked: seq<Query>, rs': seq<Result>, asked': seq<Query>)
    requires PendingIs(space, s, p) && p <= |log| && Total(log, p) <= |truth| && |rs| == |asked|
    requires asked' == asked + Questions(NotStuck(space, truth[..Total(log, p)], s))
    requires AnswersSince(space, truth, log, p, rs', asked', |rs|, [], now)
    ensures Stuck(space, truth[..Total(log, p)], s) == [] && AllInTime(space, p, rs', asked', |rs|) <==> NoneInitial(s)
  {
    var entries := truth[..Total(log, p)];
    var answered := NotStuck(space, entries, s);
    NotStuckIn(space, entries, s);
    EndAnswered(space, truth, log, p, s, now, answered, rs', asked', |rs|);
    if Stuck(space, entries, s) == [] {
      AllNotStuck(space, entries, s);
    } else if NoneInitial(s) {
      NoneInitialStuck(space, entries, s);
    }
  }

  lemma {:induction false} EndAnswered(space: nat, truth: seq<IndexEntry>, log: seq<MetaLog>, p: nat, s: seq<(nat, Query)>,
                                       now: int, answered: seq<(nat, Query)>, rs: seq<Result>, asked: seq<Query>, n: nat)
    requires PendingIs(space, s, p) && (forall x :: x in answered ==> x in s)
    requires n <= |asked| && asked[n..] == Questions(answered) && AnswersSince(space, truth, log, p, rs, asked, n, [], now)
    ensures AllInTime(space, p, rs, asked, n) <==> NoneInitial(answered)
  {
    forall j | 0 <= j < |answered|
      ensures EndOneIff(space, p, answered[j].1, rs[n + j], asked[n + j])
    {
      assert asked[n..][j] == answered[j].1;
      EndOne(space, truth, log, p, s, now, answered[j], rs[n + j], asked[n + j]);
    }
    AllInTimeIff(space, p, answered, rs, asked, n);
  }

  lemma {:induction false} EndOne(space: nat, truth: seq<IndexEntry>, log: seq<MetaLog>, p: nat, s: seq<(nat, Query)>,
                                  now: int, x: (nat, Query), r: Result, asked: Query)
    requires PendingIs(space, s, p) && x in s && asked == x.1 && AnswerNow(space, truth, log, p, r, asked, [], now)
    ensures EndOneIff(space, p, x.1, r, asked)
  {
    var k :| 0 <= k < |s| && s[k] == x;
    InTimeIff(space, truth, log, p, s[k], r);
  }

  lemma {:induction false} AllInTimeIff(space: nat, p: nat, answered: seq<(nat, Query)>, rs: seq<Result>, asked: seq<Query>,
                                        n: nat)
    requires |rs| == |asked| == n + |answered|
    requires forall j :: 0 <= j < |answered| ==> EndOneIff(space, p, answered[j].1, rs[n + j], asked[n + j])
    ensures AllInTime(space, p, rs, asked, n) <==> NoneInitial(answered)
  {
    if NoneInitial(answered) {
      forall j | n <= j < |rs|
        ensures OneInTime(space, p, rs[j], asked[j])
      {
        assert EndOneIff(space, p, answered[j - n].1, rs[n + (j - n)], asked[n + (j - n)]);
      }
    }
  }

  ghost predicate EndOneIff(space: nat, p: nat, query: Query, r: Result, asked: Query) {
    asked == query && (OneInTime(space, p, r, query) <==> !query.initial)
  }

  // Something is found exactly when something matches.
  lemma {:induction false} MatchIs(space: nat, entries: seq<IndexEntry>, query: Query, found: Option<Found>)
    requires FoundFor(space, entries, query, found) && !query.direction.ReadPrev?
    ensures found.None? <==> NextRight(space, ForUser(entries, query.userLogspace), query.seqnum, query.tag, None)
  {
  }

  lemma {:induction false} InsertSorted(s: seq<(nat, Query)>, x: (nat, Query))
    requires ByPosition(s)
    ensures ByPosition(InsertPending(s, x))
  {
    if s != [] && s[|s| - 1].0 > x.0 {
      var front, last := s[..|s| - 1], s[|s| - 1];
      InsertSorted(front, x);
      InsertMembers(front, x);
      forall j | 0 <= j < |InsertPending(front, x)|
        ensures InsertPending(front, x)[j].0 <= last.0
      {
        if InsertPending(front, x)[j] != x {
          var i :| 0 <= i < |front| && front[i] == InsertPending(front, x)[j];
          assert s[i].0 <= last.0;
        }
      }
    }
  }

  lemma {:induction false} InsertIs(space: nat, s: seq<(nat, Query)>, x: (nat, Query), p: nat)
    requires PendingIs(space, s, p) && p < x.0 && PendingRight(space, x)
    ensures PendingIs(space, InsertPending(s, x), p)
  {
    InsertSorted(s, x);
    InsertMembers(s, x);
  }

  lemma {:induction false} Smaller(m: map<nat, IndexEntry>, k: nat)
    requires k in m
    ensures |m - {k}| < |m|
  {
    assert (m - {k}).Keys == m.Keys - {k};
    assert |m.Keys - {k}| == |m.Keys| - 1;
  }

  lemma {:induction false} NextInOrder(truth: seq<IndexEntry>, i: nat)
    requires InOrder(truth) && i < |truth|
    ensures truth[..i] + [truth[i]] == truth[..i + 1] && InOrder(truth[..i + 1])
  {
  }

  // A cut whose data is complete is indexed.
  lemma {:induction false} CutIndexed(c: Core, truth: seq<IndexEntry>, log: seq<MetaLog>, have: set<nat>,
                                      received: map<nat, IndexEntry>)
    requires Partial(c, truth, log, have) && c.cuts != [] && c.cuts[0].1 <= c.dataReceived
    requires ReceivedIs(received, truth, have, c.cuts[0].1)
    ensures c.indexed <= c.cuts[0].1 && c.indexedMetalog <= c.cuts[0].0
    ensures Partial(c.(received := received, indexed := c.cuts[0].1, indexedMetalog := c.cuts[0].0 + 1, cuts := c.cuts[1..]),
                    truth, log, have)
  {
    SumsMonotone(log, c.indexedMetalog, c.indexedMetalog + 1);
  }

  // The first received entry is the next to index, as long as the cut is not complete.
  lemma {:induction false} FirstIsNext(received: map<nat, IndexEntry>, truth: seq<IndexEntry>, have: set<nat>,
                                       i: nat, end: nat, k: nat)
    requires ReceivedIs(received, truth, have, i) && i <= end && forall s :: 0 <= s < end ==> s in have
    requires k in received && forall j :: j in received ==> k <= j
    ensures if k >= end then i == end else k == i && ReceivedIs(received - {k}, truth, have, i + 1)
  {
    if i < end {
      assert i in have;
      assert i in received;
    }
  }

  // Index data that tells the truth about the log.
  ghost predicate True(truth: seq<IndexEntry>, e: IndexEntry) {
    e.seqnum < |truth| && e == truth[e.seqnum]
  }

  ghost predicate DataFits(truth: seq<IndexEntry>, data: seq<IndexEntry>) {
    forall j :: 0 <= j < |data| ==> True(truth, data[j])
  }

  ghost function Seqnums(data: seq<IndexEntry>): set<nat> {
    set j | 0 <= j < |data| :: data[j].seqnum
  }

  lemma {:induction false} SeqnumsMore(data: seq<IndexEntry>, i: nat)
    requires i < |data|
    ensures Seqnums(data[..i + 1]) == Seqnums(data[..i]) + {data[i].seqnum}
  {
    var a, b := Seqnums(data[..i + 1]), Seqnums(data[..i]) + {data[i].seqnum};
    forall s | s in a
      ensures s in b
    {
      var j :| 0 <= j < i + 1 && data[..i + 1][j].seqnum == s;
      assert j < i ==> data[..i][j] == data[j];
    }
    forall s | s in b
      ensures s in a
    {
      if s == data[i].seqnum {
        assert data[..i + 1][i].seqnum == s;
      } else {
        var j :| 0 <= j < i && data[..i][j].seqnum == s;
        assert data[..i + 1][j].seqnum == s;
      }
    }
  }

  lemma {:induction false} ReceiveOne(c: Core, truth: seq<IndexEntry>, log: seq<MetaLog>, have: set<nat>, e: IndexEntry)
    requires Partial(c, truth, log, have) && True(truth, e)
    ensures var received := if e.seqnum >= c.indexed && e.seqnum !in c.received then c.received[e.seqnum := e] else c.received;
            Partial(c.(received := received), truth, log, have + {e.seqnum})
  {
  }

  lemma {:induction false} QueueMore(c: Core, truth: seq<IndexEntry>, log: seq<MetaLog>, have: set<nat>, m: MetaLog)
    requires Partial(c, truth, log, have) && m.seqnum == |log|
    ensures Partial(c.(cuts := c.cuts + [(m.seqnum, Total(log + [m], |log| + 1))]), truth, log + [m], have)
  {
    forall k: nat | k <= |log|
      ensures Total(log + [m], k) == Total(log, k)
    {
      PrefixSums(log, [m], k);
    }
    var cuts := c.cuts + [(m.seqnum, Total(log + [m], |log| + 1))];
    assert QueueIs(cuts, log + [m], c.indexedMetalog);
  }

  method EndOfCut(m: MetaLog) returns (seqnum: nat)
    ensures seqnum == EndSeqnum(m)
  {
    seqnum := m.startSeqnum;
    for i := 0 to |m.deltas|
      invariant seqnum == m.startSeqnum + Sum(m.deltas[..i])
    {
      SumPrefixStep(m.deltas, i);
      seqnum := seqnum + m.deltas[i];
    }
    assert m.deltas[..|m.deltas|] == m.deltas;
  }

  class LogIndex {
    const space: nat
    var state: SpaceState
    var cuts: seq<(nat, nat)>
    var received: map<nat, IndexEntry>
    var dataReceived: nat
    var indexed: nat
    var indexedMetalog: nat
    var index: map<nat, PerSpaceIndex>
    var pending: seq<(nat, Query)>
    var blocking: seq<(int, Query)>
    var results: seq<Result>
    ghost const truth: seq<IndexEntry>
    ghost var log: seq<MetaLog>
    ghost var have: set<nat>
    // The queries that the results answer.
    ghost var asked: seq<Query>
    // The queries that were processed before their time, at the end of the view.
    ghost var forced: set<Query>

    ghost function Model(): Core
      reads this`cuts, this`received, this`dataReceived, this`indexed, this`indexedMetalog
    {
      Core(cuts, received, dataReceived, indexed, indexedMetalog)
    }

    // What is indexed is the log up to a cut.
    ghost predicate Consistent()
      reads this`cuts, this`received, this`dataReceived, this`indexed, this`indexedMetalog
      reads this`index, this`log, this`have
    {
      InOrder(truth) && Partial(Model(), truth, log, have) && IndexIs(index, truth[..indexed])
      && |log| < MAX_METALOG_POSITION
    }

    // What queries need of the index: it holds the log up to the indexed position.
    ghost predicate Searchable()
      reads this`index, this`indexed, this`indexedMetalog, this`log
    {
      && InOrder(truth) && indexedMetalog <= |log| && indexed == Total(log, indexedMetalog) <= |truth|
      && IndexIs(index, truth[..indexed])
    }

    ghost predicate Valid()
      reads this
    {
      && Consistent() && Complete(Model(), truth, log, have)
      && PendingIs(space, pending, indexedMetalog)
      && AllWait(blocking)
      && RightAnswers(space, truth, log, results, asked, forced)
    }

    ghost function Open(): multiset<Query>
      reads this
    {
      OpenQueries(asked, blocking, pending)
    }

    ghost predicate AnsweredNow(n: nat, waiting: seq<(int, Query)>, now: int)
      reads this
    {
      AnswersSince(space, truth, log, indexedMetalog, results, asked, n, waiting, now)
    }

    constructor (space: nat, ghost truth: seq<IndexEntry>)
      requires InOrder(truth)
      ensures Valid() && state == Normal && this.space == space && this.truth == truth
      ensures log == [] && have == {} && results == [] && asked == [] && pending == [] && blocking == []
      ensures forced == {}
    {
      this.space, this.truth := space, truth;
      state, cuts, received := Normal, [], map[];
      dataReceived, indexed, indexedMetalog, index := 0, 0, 0, map[];
      pending, blocking, results := [], [], [];
      log, have, asked, forced := [], {}, [], {};
    }

    method FirstReceived() returns (k: nat)
      requires received != map[]
      ensures k in received && forall j :: j in received ==> k <= j
    {
      var rest := received.Keys;
      k :| k in rest;
      rest := rest - {k};
      while rest != {}
        invariant k in received.Keys && rest <= received.Keys
        invariant forall j :: j in received.Keys ==> j in rest || k <= j
        decreases rest
      {
        var j :| j in rest;
        rest := rest - {j};
        if j < k {
          k := j;
        }
      }
    }

    // Everything received below the end of a cut goes into the index.
    method ApplyReceived(end: nat)
      requires Consistent() && indexed <= end <= dataReceived
      modifies this`received, this`index
      ensures ReceivedIs(received, truth, have, end) && IndexIs(index, truth[..end])
    {
      ghost var i := indexed;
      while received != map[]
        invariant indexed <= i <= end && ReceivedIs(received, truth, have, i) && IndexIs(index, truth[..i])
        decreases |received|
      {
        var k := FirstReceived();
        FirstIsNext(received, truth, have, i, end, k);
        if k >= end {
          break;
        }
        NextInOrder(truth, i);
        index := AddToIndex(index, received[k], truth[..i]);
        Smaller(received, k);
        received := received - {k};
        i := i + 1;
      }
      assert i < end ==> i in have;
    }

    method ApplyCut(end: nat)
      requires Consistent() && cuts != [] && end == cuts[0].1 <= dataReceived
      modifies this`cuts, this`received, this`index, this`indexed, this`indexedMetalog
      ensures Consistent() && cuts == old(cuts)[1..] && indexedMetalog >= old(indexedMetalog)
    {
      ghost var before := Model();
      SumsMonotone(log, indexedMetalog, indexedMetalog + 1);
      ApplyReceived(end);
      CutIndexed(before, truth, log, have, received);
      indexed := end;
      indexedMetalog := cuts[0].0 + 1;
      cuts := cuts[1..];
      assert Model() == before.(received := received, indexed := end, indexedMetalog := indexedMetalog, cuts := cuts);
    }

    // Cuts whose data is complete are indexed, in order.
    method ApplyCuts()
      requires Consistent() && FirstMissing(have, dataReceived)
      modifies this`cuts, this`received, this`index, this`indexed, this`indexedMetalog
      ensures Consistent() && Complete(Model(), truth, log, have) && indexedMetalog >= old(indexedMetalog)
    {
      while cuts != []
        invariant Consistent() && indexedMetalog >= old(indexedMetalog)
        decreases |cuts|
      {
        var end := cuts[0].1;
        if dataReceived < end {
          break;
        }
        ApplyCut(end);
      }
      ReachIs(log, |log|, dataReceived, indexedMetalog);
    }

    method FindFor(query: Query) returns (found: Option<Found>)
      requires Searchable()
      ensures FoundFor(space, truth[..indexed], query, found)
    {
      var u := query.userLogspace;
      ForUserIndexable(truth[..indexed], u);
      assert IndexedUser(index, truth[..indexed], u);
      if u !in index {
        NothingFound(space, truth[..indexed], query);
        return None;
      }
      if query.direction.ReadPrev? {
        found := FindPrev(index[u], space, query.seqnum, query.tag, ForUser(truth[..indexed], u));
      } else {
        found := FindNext(index[u], space, query.seqnum, query.tag, ForUser(truth[..indexed], u));
      }
    }

    ghost predicate AllWait(queries: seq<(int, Query)>)
      requires indexed <= |truth|
      reads this`indexed, this`indexedMetalog, this`forced
    {
      forall j :: 0 <= j < |queries| ==> Waits(space, truth[..indexed], indexedMetalog, queries[j].1, forced)
    }

    /** A query is answered from what is indexed now, or waits because nothing matches it. */
    method Process(query: Query, now: int) returns (ghost r: Option<Result>)
      requires Searchable() && Timely(space, query, indexedMetalog, forced) && (query.direction.ReadNextB? ==> query.initial)
      requires RightAnswers(space, truth, log, results, asked, forced) && AllWait(blocking)
      modifies this`results, this`blocking, this`asked
      ensures RightAnswers(space, truth, log, results, asked, forced) && AllWait(blocking)
      ensures match r
              case None =>
                && results == old(results) && asked == old(asked) && blocking == old(blocking) + [(now, query)]
                && IsStuck(space, truth[..indexed], query)
              case Some(a) =>
                && results == old(results) + [a] && asked == old(asked) + [query] && blocking == old(blocking)
                && AnswersFrom(space, truth, log, a, indexedMetalog, query) && !IsStuck(space, truth[..indexed], query)
    {
      var found := FindFor(query);
      if !query.direction.ReadPrev? {
        MatchIs(space, truth[..indexed], query, found);
      }
      var answer := ProcessQuery(SpaceView(space), JoinTwo32(space, indexedMetalog), query, found);
      r := answer;
      if answer.None? {
        blocking := blocking + [(now, query)];
      } else {
        assert Answers(space, truth, log, answer.value, indexedMetalog, query, found);
        OneMoreAnswer(space, truth, log, results, asked, forced, answer.value, indexedMetalog, query, found);
        results := results + [answer.value];
        asked := asked + [query];
      }
    }

    /** Blocking reads are tried again: exactly those that match nothing and have time left go on
        waiting; the others are answered, with nothing only if nothing matches and the time is up. */
    method RetryBlocking(now: int)
      requires Searchable() && RightAnswers(space, truth, log, results, asked, forced)
      requires forall j :: 0 <= j < |blocking| ==> MayWait(space, indexedMetalog, blocking[j].1, forced)
      modifies this`results, this`blocking, this`asked
      ensures RightAnswers(space, truth, log, results, asked, forced) && AllWait(blocking) && old(results) <= results
      ensures blocking == Kept(space, truth[..indexed], old(blocking), now)
      ensures asked == old(asked) + Questions(Finished(space, truth[..indexed], old(blocking), now))
      ensures AnsweredNow(|old(results)|, old(blocking), now) && NoneExpired(blocking, now)
    {
      var unfinished := RetryAll(now);
      KeptIff(space, truth[..indexed], blocking, now);
      KeptWait(space, truth[..indexed], indexedMetalog, blocking, now, forced);
      blocking := unfinished;
    }

    method RetryAll(now: int) returns (unfinished: seq<(int, Query)>)
      requires Searchable() && RightAnswers(space, truth, log, results, asked, forced)
      requires forall j :: 0 <= j < |blocking| ==> MayWait(space, indexedMetalog, blocking[j].1, forced)
      modifies this`results, this`asked
      ensures RightAnswers(space, truth, log, results, asked, forced) && old(results) <= results
      ensures Retried(space, truth[..indexed], blocking, now, old(asked), asked, unfinished)
      ensures AnsweredNow(|old(results)|, blocking, now)
    {
      unfinished := [];
      ghost var entries := truth[..indexed];
      for i := 0 to |blocking|
        invariant RightAnswers(space, truth, log, results, asked, forced) && old(results) <= results
        invariant Retried(space, entries, blocking[..i], now, old(asked), asked, unfinished)
        invariant AnsweredNow(|old(results)|, blocking, now)
      {
        RetryStep(space, entries, blocking, i, now, old(asked), asked, unfinished);
        var kept := RetryOne(i, now, |old(results)|);
        if kept {
          unfinished := unfinished + [blocking[i]];
        }
      }
      assert blocking[..|blocking|] == blocking;
    }

    // One blocking read: whether it goes on waiting.
    method RetryOne(i: nat, now: int, ghost n: nat) returns (kept: bool)
      requires Searchable() && RightAnswers(space, truth, log, results, asked, forced) && AnsweredNow(n, blocking, now)
      requires i < |blocking| && MayWait(space, indexedMetalog, blocking[i].1, forced)
      modifies this`results, this`asked
      ensures RightAnswers(space, truth, log, results, asked, forced) && AnsweredNow(n, blocking, now)
      ensures kept <==> Keeps(space, truth[..indexed], blocking[i], now)
      ensures asked == (if kept then old(asked) else old(asked) + [blocking[i].1]) && old(results) <= results
    {
      var (start, query) := blocking[i];
      var found := FindFor(query);
      MatchIs(space, truth[..indexed], query, found);
      var answer := ProcessBlockingQuery(SpaceView(space), JoinTwo32(space, indexedMetalog), query, found);
      if answer.None? && now - start < BLOCKING_QUERY_TIMEOUT {
        return true;
      }
      if answer.Some? {
        assert Answers(space, truth, log, answer.value, indexedMetalog, query, found);
      } else {
        answer := Some(EmptyResult(ProgressOf(query, JoinTwo32(space, indexedMetalog)), query));
        assert GivesUp(space, truth, log, answer.value, indexedMetalog, query);
        assert blocking[i] in blocking;
      }
      OneMoreAnswer(space, truth, log, results, asked, forced, answer.value, indexedMetalog, query, found);
      OneMoreSince(space, truth, log, indexedMetalog, results, asked, n, blocking, now, answer.value, query);
      results := results + [answer.value];
      asked := asked + [query];
      kept := false;
    }

    /** Exactly the queries whose position is indexed now are taken, and each is answered or, as a
        blocking read, waits on. */
    method RunPending(now: int, ghost before: nat)
      requires Searchable() && RightAnswers(space, truth, log, results, asked, forced) && AllWait(blocking)
      requires before <= indexedMetalog && PendingIs(space, pending, before) && NoneExpired(blocking, now)
      modifies this`results, this`blocking, this`pending, this`asked
      ensures RightAnswers(space, truth, log, results, asked, forced) && AllWait(blocking) && NoneExpired(blocking, now)
      ensures PendingIs(space, pending, indexedMetalog) && Left(pending, old(pending), indexedMetalog)
      ensures old(results) <= results && old(asked) <= asked && old(blocking) <= blocking
      ensures Open() == old(Open()) && AnsweredNow(|old(results)|, [], now)
    {
      while pending != []
        invariant RightAnswers(space, truth, log, results, asked, forced) && AllWait(blocking) && NoneExpired(blocking, now)
        invariant PendingIs(space, pending, before) && Left(pending, old(pending), indexedMetalog)
        invariant old(results) <= results && old(asked) <= asked && old(blocking) <= blocking
        invariant Open() == old(Open()) && AnsweredNow(|old(results)|, [], now)
        decreases |pending|
      {
        if pending[0].0 > indexedMetalog {
          break;
        }
        LeftTail(pending, old(pending), indexedMetalog);
        RunFirst(now, before, |old(results)|);
      }
    }

    method RunFirst(now: int, ghost before: nat, ghost n: nat)
      requires Searchable() && RightAnswers(space, truth, log, results, asked, forced) && AllWait(blocking)
      requires PendingIs(space, pending, before) && pending != [] && pending[0].0 <= indexedMetalog
      requires AnsweredNow(n, [], now) && NoneExpired(blocking, now)
      modifies this`results, this`blocking, this`pending, this`asked
      ensures RightAnswers(space, truth, log, results, asked, forced) && AllWait(blocking) && PendingIs(space, pending, before)
      ensures pending == old(pending)[1..]
      ensures old(results) <= results && old(asked) <= asked && old(blocking) <= blocking
      ensures Open() == old(Open()) && AnsweredNow(n, [], now) && NoneExpired(blocking, now)
    {
      var query := pending[0].1;
      PendingRest(space, pending, before);
      OpenFirst(asked, blocking, pending);
      OpenNew(asked, blocking, pending[1..], now, query);
      ProcessSince(query, now, n);
      pending := pending[1..];
    }

    // A query, when the results from the n-th on are answers from all that is indexed.
    method ProcessSince(query: Query, now: int, ghost n: nat)
      requires Searchable() && Timely(space, query, indexedMetalog, forced) && (query.direction.ReadNextB? ==> query.initial)
      requires RightAnswers(space, truth, log, results, asked, forced) && AllWait(blocking) && AnsweredNow(n, [], now)
      modifies this`results, this`blocking, this`asked
      ensures RightAnswers(space, truth, log, results, asked, forced) && AllWait(blocking) && AnsweredNow(n, [], now)
      ensures if IsStuck(space, truth[..indexed], query)
              then asked == old(asked) && blocking == old(blocking) + [(now, query)]
              else asked == old(asked) + [query] && blocking == old(blocking)
      ensures old(results) <= results
    {
      ghost var r := Process(query, now);
      if r.Some? {
        OneMoreSince(space, truth, log, indexedMetalog, old(results), old(asked), n, [], now, r.value, query);
      }
    }

    ghost predicate QueriesRight(p: nat)
      reads this
    {
      && RightAnswers(space, truth, log, results, asked, forced)
      && PendingIs(space, pending, p)
      && (forall j :: 0 <= j < |blocking| ==> MayWait(space, p, blocking[j].1, forced))
    }

    /** No query is lost or made up, and none that can be answered is left waiting: the queries
        answered, blocking and waiting are together the same as before, what waits on are exactly the
        queries whose position is not indexed, and every new result is an answer from all that is
        indexed, or gives up on a blocking read whose time is up. */
    method AdvanceIndexProgress(now: int)
      requires Consistent() && FirstMissing(have, dataReceived) && QueriesRight(indexedMetalog)
      modifies this`cuts, this`received, this`index, this`indexed, this`indexedMetalog
      modifies this`results, this`blocking, this`pending, this`asked
      ensures Valid() && Advanced(old(results), old(asked), old(pending), old(blocking), old(Open()), now)
    {
      ghost var before := indexedMetalog;
      ApplyCuts();
      RunQueries(now, before);
    }

    // What bringing the index up to date does to the queries.
    ghost predicate Advanced(results': seq<Result>, asked': seq<Query>, pending': seq<(nat, Query)>,
                             blocking': seq<(int, Query)>, open: multiset<Query>, now: int)
      reads this
    {
      && results' <= results && asked' <= asked
      && Open() == open && Left(pending, pending', indexedMetalog)
      && AnsweredNow(|results'|, blocking', now) && NoneExpired(blocking, now)
    }

    method RunQueries(now: int, ghost before: nat)
      requires Searchable() && QueriesRight(before) && before <= indexedMetalog
      modifies this`results, this`blocking, this`pending, this`asked
      ensures RightAnswers(space, truth, log, results, asked, forced) && AllWait(blocking)
      ensures PendingIs(space, pending, indexedMetalog)
      ensures Advanced(old(results), old(asked), old(pending), old(blocking), old(Open()), now)
    {
      if blocking != [] {
        RetryBlocking(now);
        OpenRetried(space, truth[..indexed], old(asked), old(blocking), pending, now);
      }
      ghost var middle, askedMiddle := results, asked;
      assert Open() == old(Open()) && AnsweredNow(|old(results)|, old(blocking), now);
      RunPending(now, before);
      SinceJoins(space, truth, log, indexedMetalog, middle, askedMiddle, |old(results)|, |middle|, old(blocking), now,
                 results, asked);
    }

    method Receive(data: seq<IndexEntry>)
      requires Consistent() && DataFits(truth, data)
      modifies this`received, this`have
      ensures Consistent() && have == old(have) + Seqnums(data)
    {
      for i := 0 to |data|
        invariant Consistent() && have == old(have) + Seqnums(data[..i])
      {
        SeqnumsMore(data, i);
        ReceiveEntry(data[i]);
      }
      assert data[..|data|] == data;
    }

    method ReceiveEntry(e: IndexEntry)
      requires Consistent() && True(truth, e)
      modifies this`received, this`have
      ensures Consistent() && have == old(have) + {e.seqnum}
    {
      ReceiveOne(Model(), truth, log, have, e);
      have := have + {e.seqnum};
      if e.seqnum >= indexed && e.seqnum !in received {
        received := received[e.seqnum := e];
      }
    }

    method AdvanceData()
      requires Consistent()
      modifies this`dataReceived
      ensures Consistent() && FirstMissing(have, dataReceived)
    {
      while dataReceived in received
        invariant Consistent()
        decreases |truth| - dataReceived
      {
        dataReceived := dataReceived + 1;
      }
    }

    /** Index data from a storage: entries already indexed or already received are skipped. */
    method ProvideIndexData(data: seq<IndexEntry>, now: int)
      requires Valid() && DataFits(truth, data)
      modifies this`received, this`have, this`dataReceived, this`cuts, this`index, this`indexed, this`indexedMetalog
      modifies this`results, this`blocking, this`pending, this`asked
      ensures Valid() && have == old(have) + Seqnums(data)
      ensures forall s: nat :: s in have <==> s in old(have) || exists j :: 0 <= j < |data| && data[j].seqnum == s
      ensures Advanced(old(results), old(asked), old(pending), old(blocking), old(Open()), now)
    {
      Receive(data);
      AdvanceData();
      AdvanceIndexProgress(now);
    }

    /** A metalog is applied: its cut is queued until the data is there. */
    method OnMetaLogApplied(m: MetaLog, ghost n: nat, now: int)
      requires Valid() && Chain(log + [m], n) && |log| + 1 < MAX_METALOG_POSITION
      modifies this`log, this`received, this`cuts, this`index, this`indexed, this`indexedMetalog
      modifies this`results, this`blocking, this`pending, this`asked
      ensures Valid() && log == old(log) + [m]
      ensures Advanced(old(results), old(asked), old(pending), old(blocking), old(Open()), now)
    {
      QueueCut(m, n);
      AdvanceIndexProgress(now);
    }

    method QueueCut(m: MetaLog, ghost n: nat)
      requires Valid() && Chain(log + [m], n) && |log| + 1 < MAX_METALOG_POSITION
      modifies this`log, this`cuts
      ensures log == old(log) + [m]
      ensures Consistent() && FirstMissing(have, dataReceived) && QueriesRight(indexedMetalog)
    {
      assert Continues(log + [m], |log|, n);
      PrefixSums(log, [m], |log|);
      var seqnum := EndOfCut(m);
      QueueMore(Model(), truth, log, have, m);
      AnswersStay(space, truth, log, m, results, asked, forced);
      cuts := cuts + [(m.seqnum, seqnum)];
      log := log + [m];
    }

    /** A query is answered at once if what its caller has seen is indexed, and waits otherwise;
        a query continued from a newer view waits for the end of this one.  false is the abort on
        a query from a newer view. */
    method MakeQuery(query: Query, now: int) returns (ok: bool)
      requires Valid() && (query.direction.ReadNextB? ==> query.initial)
      modifies this`results, this`blocking, this`pending, this`asked
      ensures Valid() && (ok <==> !(query.initial && ViewId(query.progress) > SpaceView(space)))
      ensures !ok ==> unchanged(this)
      ensures ok ==> Open() == old(Open()) + multiset{query}
      ensures query.initial && !Reached(space, query, indexedMetalog) ==>
                PutToWait(old(pending), old(results), old(blocking), (query.progress % TWO32, query))
      ensures !query.initial && !state.Finalized? ==>
                PutToWait(old(pending), old(results), old(blocking), (MAX_METALOG_POSITION, query))
      ensures ok && (if query.initial then Reached(space, query, indexedMetalog) else state.Finalized?) ==>
                Processed(old(pending), old(results), old(blocking), old(asked), query, now)
    {
      if query.initial {
        ok := MakeInitialQuery(query, now);
      } else {
        if state.Finalized? {
          ProcessNew(query, now);
        } else {
          Wait(MAX_METALOG_POSITION, query);
        }
        ok := true;
      }
    }

    method MakeInitialQuery(query: Query, now: int) returns (ok: bool)
      requires Valid() && query.initial
      modifies this`results, this`blocking, this`pending, this`asked
      ensures Valid() && (ok <==> ViewId(query.progress) <= SpaceView(space))
      ensures !ok ==> unchanged(this)
      ensures ok ==> Open() == old(Open()) + multiset{query}
      ensures !Reached(space, query, indexedMetalog) ==>
                PutToWait(old(pending), old(results), old(blocking), (query.progress % TWO32, query))
      ensures ok && Reached(space, query, indexedMetalog) ==>
                Processed(old(pending), old(results), old(blocking), old(asked), query, now)
    {
      var viewId := ViewId(query.progress);
      if viewId > SpaceView(space) {
        return false;
      } else if viewId < SpaceView(space) {
        ProcessNew(query, now);
      } else {
        var position := query.progress % TWO32;
        if position <= indexedMetalog {
          ProcessNew(query, now);
        } else {
          Wait(position, query);
        }
      }
      ok := true;
    }

    // The query has been put to wait, and nothing else has happened.
    ghost predicate PutToWait(pending': seq<(nat, Query)>, results': seq<Result>, blocking': seq<(int, Query)>, x: (nat, Query))
      reads this
    {
      pending == InsertPending(pending', x) && results == results' && blocking == blocking'
    }

    // The query has been answered from all that is indexed, or is a blocking read that nothing matches.
    ghost predicate Processed(pending': seq<(nat, Query)>, results': seq<Result>, blocking': seq<(int, Query)>,
                              asked': seq<Query>, query: Query, now: int)
      reads this
    {
      && pending == pending'
      && (|| (&& blocking == blocking' && asked == asked' + [query] && |results| == |results'| + 1 && results' <= results
              && AnswersFrom(space, truth, log, results[|results'|], indexedMetalog, query))
          || (results == results' && asked == asked' && blocking == blocking' + [(now, query)]))
    }

    method ProcessNew(query: Query, now: int)
      requires Valid() && Reached(space, query, indexedMetalog) && (query.direction.ReadNextB? ==> query.initial)
      modifies this`results, this`blocking, this`asked
      ensures Valid() && Open() == old(Open()) + multiset{query}
      ensures Processed(old(pending), old(results), old(blocking), old(asked), query, now)
    {
      OpenNew(asked, blocking, pending, now, query);
      ghost var r := Process(query, now);
    }

    method Wait(position: nat, query: Query)
      requires Valid() && indexedMetalog < position && PendingRight(space, (position, query))
      modifies this`pending
      ensures Valid() && Open() == old(Open()) + multiset{query}
      ensures pending == InsertPending(old(pending), (position, query))
    {
      InsertIs(space, pending, (position, query), indexedMetalog);
      OpenInsert(asked, blocking, pending, (position, query));
      pending := InsertPending(pending, (position, query));
    }

    /** At the end of the view every waiting query is processed, in order: the blocking reads for this
        view that nothing matches go on waiting, all others are answered from what is indexed.  The
        queries continued from a newer view were waiting for that.  An initial query is thereby answered
        from less than its caller has seen; so everything is answered in time, with at least the
        progress of its query, if and only if no initial query waits.  The state is not changed, so a
        query continued to this index later waits for good. */
    method OnFinalized(now: int)
      requires Valid()
      modifies this`results, this`pending, this`blocking, this`asked, this`forced
      ensures Valid() && pending == [] && old(results) <= results
      ensures forced == old(forced) + Impatient(old(pending))
      ensures asked == old(asked) + Questions(NotStuck(space, truth[..indexed], old(pending)))
      ensures blocking == old(blocking) + Timed(Stuck(space, truth[..indexed], old(pending)), now)
      ensures AnsweredNow(|old(results)|, [], now)
      ensures (blocking == old(blocking) && InTime(|old(results)|)) <==> NoneInitial(old(pending))
    {
      Force();
      ProcessAll(now);
      EndIff(space, truth, log, indexedMetalog, old(pending), now, old(results), old(asked), results, asked);
    }

    method ProcessAll(now: int)
      requires Searchable() && RightAnswers(space, truth, log, results, asked, forced) && AllWait(blocking)
      requires PendingIs(space, pending, indexedMetalog) && Impatient(pending) <= forced
      modifies this`results, this`pending, this`blocking, this`asked
      ensures RightAnswers(space, truth, log, results, asked, forced) && AllWait(blocking)
      ensures pending == [] && old(results) <= results && AnsweredNow(|old(results)|, [], now)
      ensures Split(space, truth[..indexed], old(pending), now, old(asked), old(blocking), asked, blocking)
    {
      ghost var waiting := pending;
      ghost var i := 0;
      while pending != []
        invariant i <= |waiting| && pending == waiting[i..] && PendingIs(space, pending, indexedMetalog)
        invariant RightAnswers(space, truth, log, results, asked, forced) && AllWait(blocking)
        invariant old(results) <= results && AnsweredNow(|old(results)|, [], now)
        invariant Split(space, truth[..indexed], waiting[..i], now, old(asked), old(blocking), asked, blocking)
        decreases |pending|
      {
        ImpatientHas(waiting, i);
        FinalizeFirst(now, |old(results)|, waiting, i, old(asked), old(blocking));
        i := i + 1;
      }
      assert waiting[..i] == waiting;
    }

    // From now on the waiting queries are not held back.
    ghost method Force()
      requires Valid()
      modifies this`forced
      ensures Valid() && forced == old(forced) + Impatient(pending)
    {
      ForcedMore(space, truth, log, results, asked, forced, forced + Impatient(pending));
      forced := forced + Impatient(pending);
    }

    method FinalizeFirst(now: int, ghost n: nat, ghost waiting: seq<(nat, Query)>, ghost i: nat, ghost asked': seq<Query>,
                         ghost blocking': seq<(int, Query)>)
      requires Searchable() && RightAnswers(space, truth, log, results, asked, forced) && AllWait(blocking)
      requires PendingIs(space, pending, indexedMetalog) && i < |waiting| && pending == waiting[i..]
      requires AnsweredNow(n, [], now)
      requires waiting[i].1.initial ==> waiting[i].1 in forced
      requires Split(space, truth[..indexed], waiting[..i], now, asked', blocking', asked, blocking)
      modifies this`results, this`pending, this`blocking, this`asked
      ensures RightAnswers(space, truth, log, results, asked, forced) && AllWait(blocking)
      ensures PendingIs(space, pending, indexedMetalog) && pending == waiting[i + 1..]
      ensures old(results) <= results && AnsweredNow(n, [], now)
      ensures Split(space, truth[..indexed], waiting[..i + 1], now, asked', blocking', asked, blocking)
    {
      var query := pending[0].1;
      PendingRest(space, pending, indexedMetalog);
      ProcessSince(query, now, n);
      SplitStep(space, truth[..indexed], waiting, i, now, asked', blocking', old(asked), old(blocking));
      pending := pending[1..];
    }

    // The results from the n-th on are from all their callers have seen and carry at least that progress.
    ghost predicate InTime(n: nat)
      reads this`results, this`asked, this`indexedMetalog
    {
      AllInTime(space, indexedMetalog, results, asked, n)
    }

    method PollQueryResults() returns (rs: seq<Result>)
      requires Valid()
      modifies this`results, this`asked
      ensures Valid() && rs == old(results) && results == [] && asked == []
      ensures RightAnswers(space, truth, log, rs, old(asked), forced)
    {
      rs := results;
      results, asked := [], [];
    }
  }

  // ------------------------------------------------------------------------
  // A query answered before its time

  // A call that has seen metalog 0, and with it its own entry 0, reads it.
  const LATE_CUT: MetaLog := MetaLog(0, 0, [0], [1])
  const LATE_ENTRY: IndexEntry := IndexEntry(0, 0, 3, [9])
  const OWN_READ: Query := Query(ReadNext, true, 3, 9, 0, 1, None)

  // The answer from the log that the caller has seen is the entry.
  lemma {:induction false} OwnReadFinds()
    ensures Chain([LATE_CUT], 1) && InOrder([LATE_ENTRY]) && Reached(0, OWN_READ, 1) && !Reached(0, OWN_READ, 0)
    ensures Answers(0, [LATE_ENTRY], [LATE_CUT], FoundResult(1, OWN_READ, Found(0, 0, 0)), 1, OWN_READ, Some(Found(0, 0, 0)))
  {
    LateLog();
    var entries := [LATE_ENTRY];
    assert entries[..1] == entries && entries[..0] == [];
    assert ForUser(entries, 3) == entries;
    assert Matches(entries[0], 9);
    assert NextRight(0, entries, 0, 9, Some(Found(0, 0, 0)));
  }

  lemma {:induction false} LateLog()
    ensures Chain([LATE_CUT], 1) && Total([LATE_CUT], 1) == 1 && Total([LATE_CUT], 0) == 0
  {
    assert Sum([1]) == 1;
    assert Continues([LATE_CUT], 0, 1);
  }

  lemma {:induction false} OpenCount(asked: seq<Query>, blocking: seq<(int, Query)>, pending: seq<(nat, Query)>)
    ensures |OpenQueries(asked, blocking, pending)| == |asked| + |blocking| + |pending|
  {
    assert |multiset(asked)| == |asked| && |multiset(Questions(blocking))| == |blocking|;
    assert |multiset(Questions(pending))| == |pending|;
  }

  lemma {:induction false} OnlyOwnRead(r: Result)
    requires AnswersFrom(0, [LATE_ENTRY], [LATE_CUT], r, 0, OWN_READ)
    ensures r == EmptyResult(0, OWN_READ)
  {
    LateLog();
    assert [LATE_ENTRY][..0] == [] && ForUser([], 3) == [];
  }

  lemma {:induction false} OnlyOwnAsked(entries: seq<IndexEntry>, p: nat, query: Query)
    requires !query.direction.ReadNextB?
    ensures [] + Questions(NotStuck(0, entries, [(p, query)])) == [query]
  {
    assert [(p, query)][..0] == [];
    assert NotStuck(0, entries, [(p, query)]) == [(p, query)];
  }

  lemma {:induction false} EmptyAnswer(rs: seq<Result>, asked: seq<Query>)
    requires AnswersSince(0, [LATE_ENTRY], [LATE_CUT], 0, rs, asked, 0, [], 0) && asked == [OWN_READ]
    ensures rs == [EmptyResult(0, OWN_READ)]
  {
    OnlyOwnRead(rs[0]);
  }

  // The metalog has arrived, its index data has not, and the read waits.
  ghost predicate LateIndex(index: LogIndex)
    reads index
  {
    && index.Valid() && index.space == 0 && index.truth == [LATE_ENTRY] && index.log == [LATE_CUT]
    && index.indexedMetalog == 0 && index.indexed == 0
    && index.pending == [(1, OWN_READ)] && index.results == [] && index.asked == [] && index.blocking == []
  }

  method CutWithoutData() returns (index: LogIndex)
    ensures fresh(index) && index.Valid() && index.space == 0 && index.truth == [LATE_ENTRY] && index.log == [LATE_CUT]
    ensures index.indexedMetalog == 0 && index.indexed == 0
    ensures index.pending == [] && index.asked == [] && index.results == [] && index.blocking == []
  {
    LateLog();
    OwnReadFinds();
    index := new LogIndex(0, [LATE_ENTRY]);
    OpenCount([], [], []);
    assert [] + [LATE_CUT] == [LATE_CUT];
    index.OnMetaLogApplied(LATE_CUT, 1, 0);
    OpenCount(index.asked, index.blocking, index.pending);
    assert index.dataReceived == 0 && index.indexedMetalog == 0;
  }

  method WaitingForData() returns (index: LogIndex)
    ensures fresh(index) && LateIndex(index)
  {
    index := CutWithoutData();
    OwnReadFinds();
    var ok := index.MakeQuery(OWN_READ, 0);
  }

  /** Then the view ends: the read is answered with nothing, and with less progress than its caller has
      seen. */
  method AnsweredTooEarly() returns (rs: seq<Result>)
    ensures rs == [EmptyResult(0, OWN_READ)]
  {
    var index := WaitingForData();
    index.OnFinalized(0);
    OnlyOwnAsked([LATE_ENTRY][..0], 1, OWN_READ);
    EmptyAnswer(index.results, index.asked);
    rs := index.PollQueryResults();
  }
}
