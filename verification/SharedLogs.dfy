/** The shared log as the library sees it: tagged records read backwards and forwards. */
module SharedLogs {
  import opened Options

  // protocol.MaxLogSeqnum: every record lies below it.
  const MAX_SEQNUM: nat := 0xffff_0000_0000_0000
  const TWO64: nat := 0x1_0000_0000_0000_0000

  datatype Record<+B> = Record(seqnum: nat, tags: set<nat>, body: B)

  predicate Ordered<B>(log: seq<Record<B>>) {
    && (forall i, j :: 0 <= i < j < |log| ==> log[i].seqnum < log[j].seqnum)
    && (forall i :: 0 <= i < |log| ==> log[i].seqnum < MAX_SEQNUM)
  }

  // How many records lie below a sequence number.
  function Below<B>(log: seq<Record<B>>, s: nat): (n: nat)
    ensures n <= |log|
  {
    if log == [] || log[|log| - 1].seqnum < s then |log| else Below(log[..|log| - 1], s)
  }

  lemma {:induction false} BelowIs<B>(log: seq<Record<B>>, s: nat)
    requires Ordered(log)
    ensures forall i :: 0 <= i < |log| ==> (log[i].seqnum < s <==> i < Below(log, s))
  {
    if log != [] && log[|log| - 1].seqnum >= s {
      BelowIs(log[..|log| - 1], s);
    }
  }

  lemma {:induction false} BelowAt<B>(log: seq<Record<B>>, i: nat)
    requires Ordered(log) && i < |log|
    ensures Below(log, log[i].seqnum) == i && Below(log, log[i].seqnum + 1) == i + 1
  {
    BelowIs(log, log[i].seqnum);
    BelowIs(log, log[i].seqnum + 1);
    if i > 0 {
      assert log[i - 1].seqnum < log[i].seqnum;
    }
    if i + 1 < |log| {
      assert log[i].seqnum < log[i + 1].seqnum;
    }
  }

  lemma {:induction false} BelowMonotone<B>(log: seq<Record<B>>, s: nat, t: nat)
    requires s <= t
    ensures Below(log, s) <= Below(log, t)
  {
    if log != [] && log[|log| - 1].seqnum >= t {
      BelowMonotone(log[..|log| - 1], s, t);
    }
  }

  lemma {:induction false} BelowZero<B>(log: seq<Record<B>>)
    ensures Below(log, 0) == 0
  {
    if log != [] {
      BelowZero(log[..|log| - 1]);
    }
  }

  lemma {:induction false} BelowStays<B>(log: seq<Record<B>>, more: seq<Record<B>>, s: nat)
    requires Ordered(log + more) && Below(log, s) < |log|
    ensures Below(log + more, s) == Below(log, s)
  {
    assert Ordered(log) by {
      assert forall i :: 0 <= i < |log| ==> (log + more)[i] == log[i];
    }
    BelowIs(log, s);
    BelowIs(log + more, s);
    var n := Below(log, s);
    assert (log + more)[n].seqnum >= s;
    if n > 0 {
      assert (log + more)[n - 1].seqnum < s;
    }
  }

  lemma {:induction false} AllBelowMax<B>(log: seq<Record<B>>)
    requires Ordered(log)
    ensures Below(log, MAX_SEQNUM) == |log|
  {
  }

  // The last record with the tag below position n.
  function LastTagged<B>(log: seq<Record<B>>, tag: nat, n: nat): (r: Option<nat>)
    requires n <= |log|
    ensures r.Some? ==> r.value < n && tag in log[r.value].tags && forall j :: r.value < j < n ==> tag !in log[j].tags
    ensures r.None? ==> forall j :: 0 <= j < n ==> tag !in log[j].tags
  {
    if n == 0 then None else if tag in log[n - 1].tags then Some(n - 1) else LastTagged(log, tag, n - 1)
  }

  // The first record with the tag from position n on.
  function FirstTagged<B>(log: seq<Record<B>>, tag: nat, n: nat): (r: Option<nat>)
    requires n <= |log|
    ensures r.Some? ==> n <= r.value < |log| && tag in log[r.value].tags && forall j :: n <= j < r.value ==> tag !in log[j].tags
    ensures r.None? ==> forall j :: n <= j < |log| ==> tag !in log[j].tags
    decreases |log| - n
  {
    if n == |log| then None else if tag in log[n].tags then Some(n) else FirstTagged(log, tag, n + 1)
  }

  // SharedLogReadPrev: the last record with the tag and a sequence number of at most q.
  function ReadPrev<B>(log: seq<Record<B>>, tag: nat, q: nat): Option<nat> {
    LastTagged(log, tag, Below(log, q + 1))
  }

  // SharedLogReadNext: the first record with the tag and a sequence number of at least q.
  function ReadNext<B>(log: seq<Record<B>>, tag: nat, q: nat): Option<nat> {
    FirstTagged(log, tag, Below(log, q))
  }

  lemma {:induction false} ReadPrevIs<B>(log: seq<Record<B>>, tag: nat, q: nat)
    requires Ordered(log)
    ensures match ReadPrev(log, tag, q)
            case None => forall j :: 0 <= j < |log| && tag in log[j].tags ==> log[j].seqnum > q
            case Some(i) =>
              && i < |log| && tag in log[i].tags && log[i].seqnum <= q
              && forall j :: i < j < |log| && tag in log[j].tags ==> log[j].seqnum > q
  {
    BelowIs(log, q + 1);
  }

  lemma {:induction false} ReadNextIs<B>(log: seq<Record<B>>, tag: nat, q: nat)
    requires Ordered(log)
    ensures match ReadNext(log, tag, q)
            case None => forall j :: 0 <= j < |log| && tag in log[j].tags ==> log[j].seqnum < q
            case Some(i) =>
              && i < |log| && tag in log[i].tags && log[i].seqnum >= q
              && forall j :: 0 <= j < i && tag in log[j].tags ==> log[j].seqnum < q
  {
    BelowIs(log, q);
  }

  // ------------------------------------------------------------------------
  // Appending

  // A record appended after some others.
  predicate Appended<B(==)>(log: seq<Record<B>>, log': seq<Record<B>>, tags: set<nat>, body: B) {
    && |log| < |log'| && log == log'[..|log|]
    && log'[|log'| - 1].tags == tags && log'[|log'| - 1].body == body
  }

  function NextSeqnum<B>(log: seq<Record<B>>): nat {
    if log == [] then 0 else log[|log| - 1].seqnum + 1
  }

  predicate Room<B>(log: seq<Record<B>>) {
    NextSeqnum(log) < MAX_SEQNUM
  }

  lemma {:induction false} OrderedMore<B>(log: seq<Record<B>>, r: Record<B>)
    requires Ordered(log) && NextSeqnum(log) <= r.seqnum < MAX_SEQNUM
    ensures Ordered(log + [r])
  {
  }

  // ------------------------------------------------------------------------
  // Snapshots: everything below a sequence number that the log has reached

  predicate Reached<B>(log: seq<Record<B>>, s: nat) {
    s <= NextSeqnum(log)
  }

  /** What others append later does not get into a snapshot. */
  lemma {:induction false} SnapshotStays<B>(log: seq<Record<B>>, log': seq<Record<B>>, s: nat)
    requires Ordered(log') && log <= log' && Reached(log, s)
    ensures Below(log', s) == Below(log, s) && Reached(log', s)
  {
    var n := Below(log, s);
    assert forall i :: 0 <= i < |log| ==> log'[i] == log[i];
    assert Ordered(log);
    BelowIs(log, s);
    BelowIs(log', s);
    if n < |log'| {
      assert n < |log| || log == [] || log[|log| - 1].seqnum < log'[n].seqnum;
      assert log'[n].seqnum >= s;
    }
    if n > 0 {
      assert log'[n - 1].seqnum < s;
    }
    if log != [] {
      assert log[|log| - 1].seqnum <= log'[|log'| - 1].seqnum;
    }
  }

  // ------------------------------------------------------------------------
  // Following some of the records, backwards or forwards

  // Positions, newest first, of the chosen records in lo..hi-1.
  ghost function Trail(chosen: set<nat>, lo: nat, hi: nat): seq<nat>
    decreases hi - lo
  {
    if lo >= hi then [] else Trail(chosen, lo + 1, hi) + if lo in chosen then [lo] else []
  }

  ghost predicate NoneIn(chosen: set<nat>, lo: nat, hi: nat) {
    forall i: nat :: lo <= i < hi ==> i !in chosen
  }

  // The same between two sequence numbers.
  ghost predicate TrailFrom<B>(log: seq<Record<B>>, chosen: set<nat>, ps: seq<nat>, s: nat, tail: nat) {
    Below(log, s) <= Below(log, tail) && ps == Trail(chosen, Below(log, s), Below(log, tail))
  }

  lemma {:induction false} TrailDown(chosen: set<nat>, lo: nat, lo': nat, hi: nat)
    requires lo' <= lo <= hi && NoneIn(chosen, lo', lo)
    ensures Trail(chosen, lo', hi) == Trail(chosen, lo, hi)
    decreases lo - lo'
  {
    if lo' < lo {
      TrailDown(chosen, lo, lo' + 1, hi);
    }
  }

  // The oldest of the trail comes next; the rest is the trail after it.
  lemma {:induction false} TrailLast(chosen: set<nat>, lo: nat, hi: nat)
    requires lo <= hi && Trail(chosen, lo, hi) != []
    ensures var ps := Trail(chosen, lo, hi);
            var j := ps[|ps| - 1];
            && lo <= j < hi && j in chosen && NoneIn(chosen, lo, j)
            && ps[..|ps| - 1] == Trail(chosen, j + 1, hi)
    decreases hi - lo
  {
    if lo !in chosen {
      TrailLast(chosen, lo + 1, hi);
    }
  }

  lemma {:induction false} TrailEmpty(chosen: set<nat>, lo: nat, hi: nat)
    requires lo <= hi && Trail(chosen, lo, hi) == []
    ensures NoneIn(chosen, lo, hi)
    decreases hi - lo
  {
    if lo < hi {
      TrailEmpty(chosen, lo + 1, hi);
    }
  }

  // Right after the last chosen record among the first n.
  ghost function NextAfter<B>(log: seq<Record<B>>, chosen: set<nat>, n: nat): nat
    requires n <= |log|
  {
    if n == 0 then 0 else if n - 1 in chosen then log[n - 1].seqnum + 1 else NextAfter(log, chosen, n - 1)
  }

  lemma {:induction false} NextAfterSkips<B>(log: seq<Record<B>>, chosen: set<nat>, a: nat, b: nat)
    requires a <= b <= |log| && NoneIn(chosen, a, b)
    ensures NextAfter(log, chosen, b) == NextAfter(log, chosen, a)
    decreases b
  {
    if a < b {
      NextAfterSkips(log, chosen, a, b - 1);
    }
  }

  lemma {:induction false} NextAfterStays<B>(log: seq<Record<B>>, chosen: set<nat>, log': seq<Record<B>>,
                                             chosen': set<nat>, n: nat)
    requires n <= |log| && log <= log' && forall i: nat :: i < n ==> (i in chosen <==> i in chosen')
    ensures NextAfter(log', chosen', n) == NextAfter(log, chosen, n)
  {
    if n > 0 {
      NextAfterStays(log, chosen, log', chosen', n - 1);
    }
  }

  // The chosen records carry the tag.
  ghost predicate Tagged<B>(log: seq<Record<B>>, chosen: set<nat>, tag: nat) {
    forall i :: i in chosen ==> i < |log| && tag in log[i].tags
  }

  // A read backwards from s skips nothing chosen.
  lemma {:induction false} PrevSkips<B>(log: seq<Record<B>>, chosen: set<nat>, tag: nat, s: nat, q: nat)
    requires Ordered(log) && Tagged(log, chosen, tag) && s > 0 && q == if s != MAX_SEQNUM then s - 1 else s
    ensures match ReadPrev(log, tag, q)
            case None => NoneIn(chosen, 0, Below(log, s))
            case Some(j) => j < Below(log, s) && log[j].seqnum < s && NoneIn(chosen, j + 1, Below(log, s))
  {
    ReadPrevIs(log, tag, q);
    BelowIs(log, s);
  }

  /** One read backwards: a record that comes next in the trail, or none is left down to `current`. */
  lemma {:induction false} CollectStep<B>(log: seq<Record<B>>, chosen: set<nat>, tag: nat, ps: seq<nat>, s: nat, q: nat,
                                          current: nat, tail: nat)
    requires Ordered(log) && Tagged(log, chosen, tag) && TrailFrom(log, chosen, ps, s, tail) && current < s <= tail
    requires q == if s != MAX_SEQNUM then s - 1 else s
    ensures match ReadPrev(log, tag, q)
            case None => TrailFrom(log, chosen, ps, current, tail)
            case Some(j) =>
              && j < |log| && log[j].seqnum < s
              && if log[j].seqnum < current then TrailFrom(log, chosen, ps, current, tail)
                 else
                   && (j !in chosen ==> TrailFrom(log, chosen, ps, log[j].seqnum, tail))
                   && (j in chosen ==> TrailFrom(log, chosen, ps + [j], log[j].seqnum, tail))
                   && TrailFrom(log, chosen, ps, log[j].seqnum + 1, tail)
                   && Below(log, log[j].seqnum + 1) == j + 1
  {
    var lo, hi := Below(log, s), Below(log, tail);
    PrevSkips(log, chosen, tag, s, q);
    var r := ReadPrev(log, tag, q);
    if r.None? {
      BelowMonotone(log, current, s);
      TrailDown(chosen, lo, Below(log, current), hi);
    } else {
      BelowAt(log, r.value);
      if log[r.value].seqnum < current {
        BelowMonotone(log, log[r.value].seqnum + 1, current);
        BelowMonotone(log, current, s);
        TrailDown(chosen, lo, Below(log, current), hi);
      } else {
        TrailDown(chosen, lo, r.value + 1, hi);
        TrailNext(chosen, r.value, hi);
      }
    }
  }

  lemma {:induction false} TrailNext(chosen: set<nat>, j: nat, hi: nat)
    requires j < hi
    ensures Trail(chosen, j, hi) == Trail(chosen, j + 1, hi) + if j in chosen then [j] else []
  {
  }

  /** One read forwards: everything skipped is not chosen. */
  lemma {:induction false} NextSkips<B>(log: seq<Record<B>>, chosen: set<nat>, tag: nat, s: nat, tail: nat)
    requires Ordered(log) && Tagged(log, chosen, tag) && s <= tail
    ensures Below(log, s) <= Below(log, tail)
    ensures match ReadNext(log, tag, s)
            case None => NoneIn(chosen, Below(log, s), Below(log, tail))
            case Some(j) =>
              && Below(log, s) <= j < |log| && s <= log[j].seqnum && Below(log, log[j].seqnum + 1) == j + 1
              && if log[j].seqnum >= tail then NoneIn(chosen, Below(log, s), Below(log, tail))
                 else NoneIn(chosen, Below(log, s), j)
  {
    ReadNextIs(log, tag, s);
    BelowIs(log, s);
    BelowIs(log, tail);
    BelowMonotone(log, s, tail);
    var r := ReadNext(log, tag, s);
    if r.Some? {
      BelowAt(log, r.value);
    }
  }
}
