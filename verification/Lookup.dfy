module Options {
  datatype Option<T> = None | Some(value: T)
}

/** Looking up sequence numbers in the index of one user log space (PerSpaceIndex). */
module Lookup {
  import opened Options

  const TWO16: nat := 0x1_0000
  const TWO32: nat := 0x1_0000_0000
  const TWO48: nat := 0x1_0000_0000_0000
  const MAX_LOG_SEQNUM: nat := 0xffff_0000_0000_0000
  const EMPTY_TAG: nat := 0

  // One indexed log entry; `seqnum` is the low half of its sequence number.
  datatype IndexEntry = IndexEntry(seqnum: nat, shard: nat, userLogspace: nat, tags: seq<nat>)

  function JoinTwo32(high: nat, low: nat): nat {
    low + high * TWO32
  }

  function ViewId(seqnum: nat): nat {
    seqnum / TWO48
  }

  // ------------------------------------------------------------------------
  // Searching a sorted vector

  predicate Sorted(s: seq<nat>) {
    forall i, j :: 0 <= i < j < |s| ==> s[i] <= s[j]
  }

  // absl::c_upper_bound: the first position past everything at most q.
  function UpperBound(s: seq<nat>, space: nat, q: nat, lo: nat, hi: nat): (i: nat)
    requires Sorted(s) && lo <= hi <= |s|
    requires forall j :: 0 <= j < lo ==> JoinTwo32(space, s[j]) <= q
    requires forall j :: hi <= j < |s| ==> q < JoinTwo32(space, s[j])
    ensures i <= |s|
    ensures forall j :: 0 <= j < |s| ==> (JoinTwo32(space, s[j]) <= q <==> j < i)
    decreases hi - lo
  {
    if lo == hi then lo
    else
      var mid := (lo + hi) / 2;
      if q < JoinTwo32(space, s[mid]) then UpperBound(s, space, q, lo, mid) else UpperBound(s, space, q, mid + 1, hi)
  }

  // absl::c_lower_bound: the first position not below q.
  function LowerBound(s: seq<nat>, space: nat, q: nat, lo: nat, hi: nat): (i: nat)
    requires Sorted(s) && lo <= hi <= |s|
    requires forall j :: 0 <= j < lo ==> JoinTwo32(space, s[j]) < q
    requires forall j :: hi <= j < |s| ==> q <= JoinTwo32(space, s[j])
    ensures i <= |s|
    ensures forall j :: 0 <= j < |s| ==> (JoinTwo32(space, s[j]) < q <==> j < i)
    decreases hi - lo
  {
    if lo == hi then lo
    else
      var mid := (lo + hi) / 2;
      if JoinTwo32(space, s[mid]) < q then LowerBound(s, space, q, mid + 1, hi) else LowerBound(s, space, q, lo, mid)
  }

  function PrevIn(s: seq<nat>, space: nat, q: nat): Option<nat>
    requires Sorted(s)
  {
    if s == [] || JoinTwo32(space, s[0]) > q then None
    else if q == MAX_LOG_SEQNUM then Some(s[|s| - 1])
    else
      var i := UpperBound(s, space, q, 0, |s|);
      if i == 0 then None else Some(s[i - 1])
  }

  function NextIn(s: seq<nat>, space: nat, q: nat): Option<nat>
    requires Sorted(s)
  {
    if s == [] || JoinTwo32(space, s[|s| - 1]) < q then None
    else
      var i := LowerBound(s, space, q, 0, |s|);
      if i == |s| then None else Some(s[i])
  }

  // The greatest element at most q.
  ghost predicate IsPrev(s: seq<nat>, space: nat, q: nat, r: Option<nat>) {
    match r
    case None => forall x :: x in s ==> JoinTwo32(space, x) > q
    case Some(y) => y in s && JoinTwo32(space, y) <= q && forall x :: x in s && JoinTwo32(space, x) <= q ==> x <= y
  }

  // The least element at least q.
  ghost predicate IsNext(s: seq<nat>, space: nat, q: nat, r: Option<nat>) {
    match r
    case None => forall x :: x in s ==> JoinTwo32(space, x) < q
    case Some(y) => y in s && JoinTwo32(space, y) >= q && forall x :: x in s && JoinTwo32(space, x) >= q ==> y <= x
  }

  /** FindPrev finds the greatest element at most q for every vector and every query but one: the
      query for the tail, in the log space whose first sequence number is the tail's own, when the
      vector starts at it and goes on past it. */
  lemma {:induction false} PrevInIff(s: seq<nat>, space: nat, q: nat)
    requires Sorted(s) && forall x :: x in s ==> x < TWO32
    ensures IsPrev(s, space, q, PrevIn(s, space, q)) <==>
            !(q == MAX_LOG_SEQNUM && space == 0xffff_0000 && s != [] && s[0] == 0 && s[|s| - 1] > 0)
  {
    if s != [] && JoinTwo32(space, s[0]) <= q {
      assert s[0] in s;
      var last := s[|s| - 1];
      assert last in s;
      if q != MAX_LOG_SEQNUM {
        var i := UpperBound(s, space, q, 0, |s|);
        assert JoinTwo32(space, s[i - 1]) <= q;
      }
    }
  }

  // For example: the tail query on entries 0 and 1 of that log space answers with entry 1, past the query.
  lemma {:induction false} TailQueryWrong()
    ensures PrevIn([0, 1], 0xffff_0000, MAX_LOG_SEQNUM) == Some(1)
    ensures !IsPrev([0, 1], 0xffff_0000, MAX_LOG_SEQNUM, Some(1)) && IsPrev([0, 1], 0xffff_0000, MAX_LOG_SEQNUM, Some(0))
  {
    var s: seq<nat> := [0, 1];
    assert s[0] == 0 && s[1] == 1;
  }

  lemma {:induction false} NextInRight(s: seq<nat>, space: nat, q: nat)
    requires Sorted(s)
    ensures IsNext(s, space, q, NextIn(s, space, q))
  {
    if s != [] && JoinTwo32(space, s[|s| - 1]) >= q {
      var i := LowerBound(s, space, q, 0, |s|);
      assert s[i] in s;
    }
  }

  // ------------------------------------------------------------------------
  // The index of one user log space

  predicate Matches(e: IndexEntry, tag: nat) {
    tag == EMPTY_TAG || tag in e.tags
  }

  // Entries arrive by increasing sequence number, never tagged with the empty tag.
  ghost predicate Indexable(entries: seq<IndexEntry>) {
    && (forall i, j :: 0 <= i < j < |entries| ==> entries[i].seqnum < entries[j].seqnum)
    && (forall i :: 0 <= i < |entries| ==> entries[i].seqnum < TWO32 && EMPTY_TAG !in entries[i].tags)
  }

  datatype PerSpaceIndex = PerSpaceIndex(engineIds: map<nat, nat>, seqnums: seq<nat>, byTag: map<nat, seq<nat>>)

  const EMPTY_INDEX := PerSpaceIndex(map[], [], map[])

  function ListOf(ps: PerSpaceIndex, tag: nat): seq<nat> {
    if tag == EMPTY_TAG then ps.seqnums else if tag in ps.byTag then ps.byTag[tag] else []
  }

  // The index holds exactly these entries.
  ghost predicate Indexes(ps: PerSpaceIndex, entries: seq<IndexEntry>) {
    && (forall tag: nat :: ListIs(ListOf(ps, tag), entries, tag))
    && (forall i :: 0 <= i < |entries| ==>
          entries[i].seqnum in ps.engineIds && ps.engineIds[entries[i].seqnum] == entries[i].shard)
    && EMPTY_TAG !in ps.byTag
  }

  ghost predicate ListIs(s: seq<nat>, entries: seq<IndexEntry>, tag: nat) {
    Sorted(s) && forall x :: x in s <==> Has(entries, tag, x)
  }

  ghost predicate Has(entries: seq<IndexEntry>, tag: nat, x: nat) {
    exists i :: 0 <= i < |entries| && entries[i].seqnum == x && Matches(entries[i], tag)
  }

  /** Adding one entry adds it to the list of all and to the list of each of its tags. */
  method Add(ps: PerSpaceIndex, e: IndexEntry, ghost entries: seq<IndexEntry>) returns (ps': PerSpaceIndex)
    requires Indexes(ps, entries) && Indexable(entries + [e])
    ensures Indexes(ps', entries + [e])
  {
    var byTag := ps.byTag;
    for i := 0 to |e.tags|
      invariant forall tag: nat :: TagListIs(ps, byTag, e, tag, i)
      invariant EMPTY_TAG !in byTag
    {
      var tag := e.tags[i];
      ghost var before, next := byTag, i + 1;
      assert tag != EMPTY_TAG by { assert (entries + [e])[|entries|] == e; }
      byTag := byTag[tag := (if tag in byTag then byTag[tag] else []) + [e.seqnum]];
      forall t: nat
        ensures TagListIs(ps, byTag, e, t, next)
      {
        assert TagListIs(ps, before, e, t, i);
        assert e.tags[..next] == e.tags[..i] + [tag];
      }
    }
    ps' := PerSpaceIndex(ps.engineIds[e.seqnum := e.shard], ps.seqnums + [e.seqnum], byTag);
    forall i | 0 <= i < |entries|
      ensures entries[i].seqnum != e.seqnum
    {
      assert (entries + [e])[i].seqnum < (entries + [e])[|entries|].seqnum;
    }
    forall tag: nat
      ensures ListIs(ListOf(ps', tag), entries + [e], tag)
    {
      assert TagListIs(ps, byTag, e, tag, |e.tags|);
      assert e.tags[..|e.tags|] == e.tags;
      AddOne(ListOf(ps, tag), ListOf(ps', tag), entries, e, tag);
    }
  }

  // The list of a tag after the first i tags of a new entry.
  ghost predicate TagListIs(ps: PerSpaceIndex, byTag: map<nat, seq<nat>>, e: IndexEntry, tag: nat, i: nat)
    requires i <= |e.tags|
  {
    && (tag in byTag <==> tag in ps.byTag || tag in e.tags[..i])
    && (tag in byTag ==> Grown(if tag in ps.byTag then ps.byTag[tag] else [], byTag[tag], e.seqnum, tag in e.tags[..i]))
  }

  // A list with some further copies of one element; at least one exactly when `more`.
  ghost predicate Grown(s: seq<nat>, s': seq<nat>, x: nat, more: bool) {
    && |s| <= |s'| && s'[..|s|] == s
    && (forall j :: |s| <= j < |s'| ==> s'[j] == x)
    && (more <==> |s'| > |s|)
  }

  lemma {:induction false} AddOne(s: seq<nat>, s': seq<nat>, entries: seq<IndexEntry>, e: IndexEntry, tag: nat)
    requires ListIs(s, entries, tag) && Indexable(entries + [e]) && Grown(s, s', e.seqnum, Matches(e, tag))
    ensures ListIs(s', entries + [e], tag)
  {
    var entries' := entries + [e];
    forall x
      ensures Has(entries', tag, x) <==> Has(entries, tag, x) || (x == e.seqnum && Matches(e, tag))
    {
      if Has(entries, tag, x) {
        var i :| 0 <= i < |entries| && entries[i].seqnum == x && Matches(entries[i], tag);
        assert entries'[i] == entries[i];
      }
      if x == e.seqnum && Matches(e, tag) {
        assert entries'[|entries|] == e;
      }
    }
    forall x
      ensures x in s' <==> x in s || (x == e.seqnum && Matches(e, tag))
    {
      if x in s' {
        var j :| 0 <= j < |s'| && s'[j] == x;
        assert j < |s| ==> s[j] == s'[..|s|][j];
      }
      if x in s {
        var j :| 0 <= j < |s| && s[j] == x;
        assert s'[..|s|][j] == x;
      }
      if x == e.seqnum && Matches(e, tag) {
        assert s'[|s|] == x;
      }
    }
    forall i | 0 <= i < |s|
      ensures s[i] < e.seqnum && s'[i] == s[i]
    {
      assert s'[..|s|][i] == s[i];
      assert s[i] in s;
      var j :| 0 <= j < |entries| && entries[j].seqnum == s[i] && Matches(entries[j], tag);
      assert entries'[j].seqnum < entries'[|entries|].seqnum;
    }
  }

  // ------------------------------------------------------------------------
  // Finding an entry

  datatype Found = Found(view: nat, engine: nat, seqnum: nat)

  function SpaceView(space: nat): nat {
    space / TWO16
  }

  // The entry of the given log space and tag with the greatest sequence number at most q.
  ghost predicate PrevRight(space: nat, entries: seq<IndexEntry>, q: nat, tag: nat, r: Option<Found>) {
    match r
    case None => forall i :: 0 <= i < |entries| && Matches(entries[i], tag) ==> JoinTwo32(space, entries[i].seqnum) > q
    case Some(f) =>
      && f.seqnum <= q && Describes(f, space, entries, tag)
      && forall i :: 0 <= i < |entries| && Matches(entries[i], tag) && JoinTwo32(space, entries[i].seqnum) <= q ==>
           JoinTwo32(space, entries[i].seqnum) <= f.seqnum
  }

  ghost predicate NextRight(space: nat, entries: seq<IndexEntry>, q: nat, tag: nat, r: Option<Found>) {
    match r
    case None => forall i :: 0 <= i < |entries| && Matches(entries[i], tag) ==> JoinTwo32(space, entries[i].seqnum) < q
    case Some(f) =>
      && f.seqnum >= q && Describes(f, space, entries, tag)
      && forall i :: 0 <= i < |entries| && Matches(entries[i], tag) && JoinTwo32(space, entries[i].seqnum) >= q ==>
           JoinTwo32(space, entries[i].seqnum) >= f.seqnum
  }

  ghost predicate Describes(f: Found, space: nat, entries: seq<IndexEntry>, tag: nat) {
    && f.view == SpaceView(space)
    && exists i :: 0 <= i < |entries| && Matches(entries[i], tag)
                   && f.seqnum == JoinTwo32(space, entries[i].seqnum) && f.engine == entries[i].shard
  }

  // The one query that is answered wrongly.
  ghost predicate TailWraps(space: nat, entries: seq<IndexEntry>, q: nat, tag: nat) {
    && q == MAX_LOG_SEQNUM && space == 0xffff_0000
    && Has(entries, tag, 0) && exists x :: x > 0 && Has(entries, tag, x)
  }

  // The last matching entry.
  ghost predicate Latest(space: nat, entries: seq<IndexEntry>, tag: nat, r: Option<Found>) {
    && r.Some? && Describes(r.value, space, entries, tag)
    && forall i :: 0 <= i < |entries| && Matches(entries[i], tag) ==> JoinTwo32(space, entries[i].seqnum) <= r.value.seqnum
  }

  // What FindPrev returns: the predecessor, exactly outside that family, and the last match in it.
  ghost predicate FoundPrev(space: nat, entries: seq<IndexEntry>, q: nat, tag: nat, r: Option<Found>) {
    && (PrevRight(space, entries, q, tag, r) <==> !TailWraps(space, entries, q, tag))
    && (TailWraps(space, entries, q, tag) ==> Latest(space, entries, tag, r))
  }

  lemma {:induction false} TailWrapsIff(s: seq<nat>, space: nat, entries: seq<IndexEntry>, q: nat, tag: nat)
    requires ListIs(s, entries, tag)
    ensures TailWraps(space, entries, q, tag) <==>
            q == MAX_LOG_SEQNUM && space == 0xffff_0000 && s != [] && s[0] == 0 && s[|s| - 1] > 0
  {
    if TailWraps(space, entries, q, tag) {
      var x :| x > 0 && Has(entries, tag, x);
      assert 0 in s && x in s;
    }
    if s != [] {
      assert s[0] in s && s[|s| - 1] in s;
    }
  }

  /** FindPrev is right exactly when the query is not the one that PrevInIff singles out; then it
      returns the last match. */
  method FindPrev(ps: PerSpaceIndex, space: nat, q: nat, tag: nat, ghost entries: seq<IndexEntry>)
      returns (r: Option<Found>)
    requires Indexes(ps, entries) && Indexable(entries)
    ensures FoundPrev(space, entries, q, tag, r)
  {
    ghost var s := ListOf(ps, tag);
    assert ListIs(s, entries, tag);
    SmallElements(s, entries, tag);
    PrevInIff(s, space, q);
    TailWrapsIff(s, space, entries, q, tag);
    var found: Option<nat>;
    if tag == EMPTY_TAG {
      found := PrevIn(ps.seqnums, space, q);
    } else {
      if tag !in ps.byTag {
        found := None;
      } else {
        found := PrevIn(ps.byTag[tag], space, q);
      }
    }
    if found.None? {
      NoneInList(s, space, entries, tag);
      return None;
    }
    InList(s, entries, tag, found.value);
    LastInList(s, space, entries, tag);
    r := Some(Found(SpaceView(space), ps.engineIds[found.value], JoinTwo32(space, found.value)));
  }

  lemma {:induction false} LastInList(s: seq<nat>, space: nat, entries: seq<IndexEntry>, tag: nat)
    requires ListIs(s, entries, tag) && s != []
    ensures forall i :: 0 <= i < |entries| && Matches(entries[i], tag) ==>
              JoinTwo32(space, entries[i].seqnum) <= JoinTwo32(space, s[|s| - 1])
  {
    NoneInList(s, space, entries, tag);
  }

  method FindNext(ps: PerSpaceIndex, space: nat, q: nat, tag: nat, ghost entries: seq<IndexEntry>)
      returns (r: Option<Found>)
    requires Indexes(ps, entries) && Indexable(entries)
    ensures NextRight(space, entries, q, tag, r)
  {
    ghost var s := ListOf(ps, tag);
    assert ListIs(s, entries, tag);
    NextInRight(s, space, q);
    var found: Option<nat>;
    if tag == EMPTY_TAG {
      found := NextIn(ps.seqnums, space, q);
    } else {
      if tag !in ps.byTag {
        found := None;
      } else {
        found := NextIn(ps.byTag[tag], space, q);
      }
    }
    if found.None? {
      NoneInList(s, space, entries, tag);
      return None;
    }
    InList(s, entries, tag, found.value);
    r := Some(Found(SpaceView(space), ps.engineIds[found.value], JoinTwo32(space, found.value)));
  }

  lemma {:induction false} SmallElements(s: seq<nat>, entries: seq<IndexEntry>, tag: nat)
    requires ListIs(s, entries, tag) && Indexable(entries)
    ensures forall x :: x in s ==> x < TWO32
  {
    forall x | x in s
      ensures x < TWO32
    {
      var i :| 0 <= i < |entries| && entries[i].seqnum == x && Matches(entries[i], tag);
    }
  }

  lemma {:induction false} InList(s: seq<nat>, entries: seq<IndexEntry>, tag: nat, x: nat)
    requires ListIs(s, entries, tag) && x in s
    ensures exists i :: 0 <= i < |entries| && entries[i].seqnum == x && Matches(entries[i], tag)
    ensures forall i :: 0 <= i < |entries| && Matches(entries[i], tag) ==> entries[i].seqnum in s
  {
    NoneInList(s, 0, entries, tag);
  }

  lemma {:induction false} NoneInList(s: seq<nat>, space: nat, entries: seq<IndexEntry>, tag: nat)
    requires ListIs(s, entries, tag)
    ensures forall i :: 0 <= i < |entries| && Matches(entries[i], tag) ==> entries[i].seqnum in s
  {
    forall i | 0 <= i < |entries| && Matches(entries[i], tag)
      ensures entries[i].seqnum in s
    {
      assert Has(entries, tag, entries[i].seqnum);
    }
  }
}
