/**
 Freezing a log space and merging the frozen tails into a final position.
 */
module Sealing {
  import opened MetaLogs
  import opened LogSpaces

  // The last `length` applied metalogs.
  function TailOf(applied: seq<MetaLog>, length: nat): seq<MetaLog> {
    if length <= |applied| then applied[|applied| - length..] else applied
  }

  /** The tail holds exactly the last `length` applied metalogs. */
  lemma {:induction false} TailIs(applied: seq<MetaLog>, length: nat)
    ensures |TailOf(applied, length)| <= |applied|
    ensures forall k: nat :: k < |applied| && |applied| - k <= length ==> applied[k] in TailOf(applied, length)
    ensures forall m :: m in TailOf(applied, length) ==> exists k :: |applied| - length <= k < |applied| && 0 <= k && applied[k] == m
  {
    var tail := TailOf(applied, length);
    var start := |applied| - |tail|;
    forall k: nat | k < |applied| && |applied| - k <= length
      ensures applied[k] in tail
    {
      assert tail[k - start] == applied[k];
    }
    forall m | m in tail
      ensures exists k :: |applied| - length <= k < |applied| && 0 <= k && applied[k] == m
    {
      var j :| 0 <= j < |tail| && tail[j] == m;
      assert applied[start + j] == m;
    }
  }

  method FreezeLogSpace(space: LogSpace, length: nat) returns (tail: seq<MetaLog>)
    requires space.position == |space.applied|
    modifies space`frozen
    ensures space.frozen && tail == TailOf(space.applied, length)
  {
    space.Freeze();
    var end := space.position;
    var start := end - if length < end then length else end;
    tail := [];
    for pos := start to end
      invariant tail == space.applied[start..pos]
    {
      tail := tail + [space.applied[pos]];
    }
  }

  // The merge of several tails: every metalog of every tail once, in order, and the
  // position right after the last of them.
  ghost predicate Merges(parts: set<seq<MetaLog>>, finalPosition: nat, tail: seq<MetaLog>) {
    && (forall j :: 0 <= j < |tail| ==> exists p :: p in parts && tail[j] in p)
    && (forall p, m :: p in parts && m in p ==> Carries(tail, m.seqnum))
    && (forall i, j :: 0 <= i < j < |tail| ==> tail[i].seqnum < tail[j].seqnum)
    && finalPosition == if tail == [] then 0 else tail[|tail| - 1].seqnum + 1
  }

  ghost predicate Carries(tail: seq<MetaLog>, k: nat) {
    exists j :: 0 <= j < |tail| && tail[j].seqnum == k
  }

  ghost predicate Indexed(entries: map<nat, MetaLog>, parts: set<seq<MetaLog>>) {
    && (forall k :: k in entries ==> entries[k].seqnum == k && exists p :: p in parts && entries[k] in p)
    && (forall p, m :: p in parts && m in p ==> m.seqnum in entries)
  }

  ghost function Parts(tails: seq<seq<MetaLog>>): set<seq<MetaLog>> {
    set p | p in tails
  }

  method CollectEntries(tails: seq<seq<MetaLog>>) returns (entries: map<nat, MetaLog>)
    ensures Indexed(entries, Parts(tails))
  {
    entries := map[];
    for i := 0 to |tails|
      invariant Indexed(entries, Parts(tails[..i]))
    {
      for j := 0 to |tails[i]|
        invariant Indexed(entries, Parts(tails[..i]) + {tails[i][..j]})
      {
        ghost var before := entries;
        entries := entries[tails[i][j].seqnum := tails[i][j]];
        assert tails[i][..j + 1] == tails[i][..j] + [tails[i][j]];
        IndexedAdd(before, Parts(tails[..i]), tails[i][..j], tails[i][j]);
      }
      assert tails[i][..|tails[i]|] == tails[i];
      assert Parts(tails[..i + 1]) == Parts(tails[..i]) + {tails[i]};
    }
    assert tails[..|tails|] == tails;
  }

  lemma {:induction false} IndexedAdd(entries: map<nat, MetaLog>, parts: set<seq<MetaLog>>, part: seq<MetaLog>,
                                      m: MetaLog)
    requires Indexed(entries, parts + {part})
    ensures Indexed(entries[m.seqnum := m], parts + {part + [m]})
  {
    var entries', parts' := entries[m.seqnum := m], parts + {part + [m]};
    forall k | k in entries'
      ensures entries'[k].seqnum == k && exists p :: p in parts' && entries'[k] in p
    {
      if k == m.seqnum {
        assert part + [m] in parts' && m in part + [m];
      } else {
        var p :| p in parts + {part} && entries[k] in p;
        assert p in parts' || part + [m] in parts';
        assert p in parts || entries[k] in part + [m];
      }
    }
    forall p, x | p in parts' && x in p
      ensures x.seqnum in entries'
    {
      if p !in parts {
        assert x in part || x == m;
      }
    }
  }

  // The tail lists, in order, the entries whose numbers are no longer in `rest`.
  ghost predicate Listed(entries: map<nat, MetaLog>, rest: set<nat>, tail: seq<MetaLog>) {
    && rest <= entries.Keys
    && (forall j :: 0 <= j < |tail| ==> tail[j].seqnum in entries && tail[j] == entries[tail[j].seqnum])
    && (forall k :: k in entries ==> k in rest || Carries(tail, k))
    && (forall j, k :: 0 <= j < |tail| && k in rest ==> tail[j].seqnum < k)
    && (forall i, j :: 0 <= i < j < |tail| ==> tail[i].seqnum < tail[j].seqnum)
  }

  lemma {:induction false} ListedStep(entries: map<nat, MetaLog>, rest: set<nat>, tail: seq<MetaLog>, k: nat)
    requires Listed(entries, rest, tail) && k in rest && entries[k].seqnum == k && forall j :: j in rest ==> k <= j
    ensures Listed(entries, rest - {k}, tail + [entries[k]])
  {
    var tail' := tail + [entries[k]];
    assert tail'[|tail|].seqnum == k;
    forall x | x in entries && Carries(tail, x)
      ensures Carries(tail', x)
    {
      var j :| 0 <= j < |tail| && tail[j].seqnum == x;
      assert tail'[j].seqnum == x;
    }
  }

  method BuildFinalTailMetalog(tails: seq<seq<MetaLog>>) returns (finalPosition: nat, finalTail: seq<MetaLog>)
    ensures Merges(Parts(tails), finalPosition, finalTail)
  {
    var entries := CollectEntries(tails);
    finalPosition, finalTail := 0, [];
    var rest := entries.Keys;
    while rest != {}
      invariant Listed(entries, rest, finalTail)
      invariant finalPosition == if finalTail == [] then 0 else finalTail[|finalTail| - 1].seqnum + 1
      decreases rest
    {
      var k := TakeLeast(rest);
      ListedStep(entries, rest, finalTail, k);
      finalTail := finalTail + [entries[k]];
      finalPosition := k + 1;
      rest := rest - {k};
    }
  }

  method TakeLeast(s: set<nat>) returns (k: nat)
    requires s != {}
    ensures k in s && forall j :: j in s ==> k <= j
  {
    ghost var least := Least(s);
    k :| k in s && forall j :: j in s ==> k <= j;
  }

  function Quorum(replicas: nat): nat {
    (replicas + 1) / 2
  }

  // ------------------------------------------------------------------------
  // The controller

  // The frozen tails of one log space, by sequencer.
  function TailsOf(tails: map<(nat, nat), seq<MetaLog>>, phylog: nat): map<nat, seq<MetaLog>> {
    map node | node in (set key | key in tails && key.0 == phylog :: key.1) :: tails[(phylog, node)]
  }

  // A tail as a frozen sequencer reports it.
  datatype FrozenTail = FrozenTail(logspaceId: nat, metalogs: seq<MetaLog>)

  // Map keys hold the lower 16 bits of a log space id: its sequencer.
  function PhylogOf(logspaceId: nat): nat {
    logspaceId % 0x1_0000
  }

  // The id of the log space of a sequencer in a view.
  function LogspaceOf(view: nat, sequencer: nat): nat {
    view * 0x1_0000 + sequencer
  }

  lemma {:induction false} PhylogOfLogspace(view: nat, sequencer: nat)
    requires sequencer < 0x1_0000
    ensures PhylogOf(LogspaceOf(view, sequencer)) == sequencer
  {
  }

  function WithFrozen(tails: map<(nat, nat), seq<MetaLog>>, node: nat,
                      frozen: seq<FrozenTail>): map<(nat, nat), seq<MetaLog>> {
    if frozen == [] then tails
    else
      var last := frozen[|frozen| - 1];
      WithFrozen(tails, node, frozen[..|frozen| - 1])[(PhylogOf(last.logspaceId), node) := last.metalogs]
  }

  // ------------------------------------------------------------------------
  // What a sequence of reports leaves

  datatype Report = Report(node: nat, frozen: seq<FrozenTail>)

  function AfterReports(reports: seq<Report>): map<(nat, nat), seq<MetaLog>> {
    if reports == [] then map[]
    else
      var last := reports[|reports| - 1];
      WithFrozen(AfterReports(reports[..|reports| - 1]), last.node, last.frozen)
  }

  // Entry i of a report is its last one for the log space.
  ghost predicate LastFor(frozen: seq<FrozenTail>, phylog: nat, i: nat) {
    && i < |frozen| && PhylogOf(frozen[i].logspaceId) == phylog
    && forall j :: i < j < |frozen| ==> PhylogOf(frozen[j].logspaceId) != phylog
  }

  ghost predicate Mentions(frozen: seq<FrozenTail>, phylog: nat) {
    exists i :: 0 <= i < |frozen| && PhylogOf(frozen[i].logspaceId) == phylog
  }

  // The sequencer has reported a tail of the log space.
  ghost predicate Reported(reports: seq<Report>, phylog: nat, node: nat) {
    exists r :: 0 <= r < |reports| && reports[r].node == node && Mentions(reports[r].frozen, phylog)
  }

  ghost function Reporters(reports: seq<Report>, phylog: nat): set<nat> {
    set r | 0 <= r < |reports| && Mentions(reports[r].frozen, phylog) :: reports[r].node
  }

  // Entry i of report r is the sequencer's last tail of the log space.
  ghost predicate LastReported(reports: seq<Report>, phylog: nat, node: nat, r: nat, i: nat) {
    && r < |reports| && reports[r].node == node && LastFor(reports[r].frozen, phylog, i)
    && forall k :: r < k < |reports| && reports[k].node == node ==> !Mentions(reports[k].frozen, phylog)
  }

  // One tail is kept for its own log space and sequencer.
  lemma {:induction false} OneTail(tails: map<(nat, nat), seq<MetaLog>>, p: nat, node: nat, m: seq<MetaLog>, phylog: nat)
    ensures TailsOf(tails[(p, node) := m], phylog)
         == if p == phylog then TailsOf(tails, phylog)[node := m] else TailsOf(tails, phylog)
  {
    var t' := TailsOf(tails[(p, node) := m], phylog);
    var t := if p == phylog then TailsOf(tails, phylog)[node := m] else TailsOf(tails, phylog);
    forall x
      ensures x in t' <==> x in t
    {
      assert x in t' <==> (phylog, x) in tails[(p, node) := m];
      assert x in TailsOf(tails, phylog) <==> (phylog, x) in tails;
    }
  }

  // A report without a tail of the log space changes nothing for it.
  lemma {:induction false} OtherTails(tails: map<(nat, nat), seq<MetaLog>>, node: nat, frozen: seq<FrozenTail>, phylog: nat)
    requires !Mentions(frozen, phylog)
    ensures TailsOf(WithFrozen(tails, node, frozen), phylog) == TailsOf(tails, phylog)
  {
    if frozen != [] {
      var front, last := frozen[..|frozen| - 1], frozen[|frozen| - 1];
      assert forall i :: 0 <= i < |front| ==> front[i] == frozen[i];
      OtherTails(tails, node, front, phylog);
      FrozenStep(tails, node, frozen, phylog);
    }
  }

  // Of several tails of a log space in one report the last counts.
  lemma {:induction false} LastTail(tails: map<(nat, nat), seq<MetaLog>>, node: nat, frozen: seq<FrozenTail>, phylog: nat,
                                    i: nat)
    requires LastFor(frozen, phylog, i)
    ensures TailsOf(WithFrozen(tails, node, frozen), phylog) == TailsOf(tails, phylog)[node := frozen[i].metalogs]
  {
    var front, last := frozen[..|frozen| - 1], frozen[|frozen| - 1];
    FrozenStep(tails, node, frozen, phylog);
    if i < |front| {
      LastTail(tails, node, front, phylog, i);
    } else {
      OnlyOwnTail(tails, node, front, phylog, last.metalogs);
    }
  }

  lemma {:induction false} FrozenStep(tails: map<(nat, nat), seq<MetaLog>>, node: nat, frozen: seq<FrozenTail>, phylog: nat)
    requires frozen != []
    ensures var last, before := frozen[|frozen| - 1], TailsOf(WithFrozen(tails, node, frozen[..|frozen| - 1]), phylog);
            TailsOf(WithFrozen(tails, node, frozen), phylog)
            == if PhylogOf(last.logspaceId) == phylog then before[node := last.metalogs] else before
  {
    var front, last := frozen[..|frozen| - 1], frozen[|frozen| - 1];
    OneTail(WithFrozen(tails, node, front), PhylogOf(last.logspaceId), node, last.metalogs, phylog);
  }

  lemma {:induction false} OnlyOwnTail(tails: map<(nat, nat), seq<MetaLog>>, node: nat, frozen: seq<FrozenTail>, phylog: nat,
                                       m: seq<MetaLog>)
    ensures TailsOf(WithFrozen(tails, node, frozen), phylog)[node := m] == TailsOf(tails, phylog)[node := m]
  {
    if frozen != [] {
      var front, last := frozen[..|frozen| - 1], frozen[|frozen| - 1];
      OnlyOwnTail(tails, node, front, phylog, m);
      FrozenStep(tails, node, frozen, phylog);
    }
  }

  lemma {:induction false} LastMention(frozen: seq<FrozenTail>, phylog: nat) returns (i: nat)
    requires Mentions(frozen, phylog)
    ensures LastFor(frozen, phylog, i)
  {
    var front, last := frozen[..|frozen| - 1], frozen[|frozen| - 1];
    if PhylogOf(last.logspaceId) == phylog {
      i := |front|;
    } else {
      var j :| 0 <= j < |frozen| && PhylogOf(frozen[j].logspaceId) == phylog;
      assert front[j] == frozen[j];
      i := LastMention(front, phylog);
    }
  }

  /** After any sequence of reports, the tails of a log space are those of exactly the sequencers that have
      reported one. */
  lemma {:induction false} ReportsKept(reports: seq<Report>, phylog: nat, node: nat)
    ensures node in TailsOf(AfterReports(reports), phylog) <==> Reported(reports, phylog, node)
  {
    if reports != [] {
      var front, last := reports[..|reports| - 1], reports[|reports| - 1];
      ReportsKept(front, phylog, node);
      ReportedMore(reports, phylog, node);
      if Mentions(last.frozen, phylog) {
        var i := LastMention(last.frozen, phylog);
        LastTail(AfterReports(front), last.node, last.frozen, phylog, i);
      } else {
        OtherTails(AfterReports(front), last.node, last.frozen, phylog);
      }
    }
  }

  /** And each of them counts with the last tail it has reported. */
  lemma {:induction false} LastKept(reports: seq<Report>, phylog: nat, node: nat, r: nat, i: nat)
    requires LastReported(reports, phylog, node, r, i)
    ensures node in TailsOf(AfterReports(reports), phylog)
    ensures TailsOf(AfterReports(reports), phylog)[node] == reports[r].frozen[i].metalogs
  {
    var front, last := reports[..|reports| - 1], reports[|reports| - 1];
    if r == |front| {
      LastTail(AfterReports(front), node, last.frozen, phylog, i);
    } else {
      LastKept(front, phylog, node, r, i);
      if Mentions(last.frozen, phylog) {
        var k := LastMention(last.frozen, phylog);
        LastTail(AfterReports(front), last.node, last.frozen, phylog, k);
      } else {
        OtherTails(AfterReports(front), last.node, last.frozen, phylog);
      }
    }
  }

  lemma {:induction false} ReportedMore(reports: seq<Report>, phylog: nat, node: nat)
    requires reports != []
    ensures var last := reports[|reports| - 1];
            Reported(reports, phylog, node) <==>
            Reported(reports[..|reports| - 1], phylog, node) || (last.node == node && Mentions(last.frozen, phylog))
  {
    var front := reports[..|reports| - 1];
    forall r | 0 <= r < |front|
      ensures reports[r] == front[r]
    {
    }
  }

  /** So a log space has a quorum exactly when that many different sequencers have reported it. */
  lemma {:induction false} QuorumOfReporters(reports: seq<Report>, phylog: nat, replicas: nat)
    ensures HasQuorum(AfterReports(reports), phylog, replicas) <==> |Reporters(reports, phylog)| >= Quorum(replicas)
  {
    var kept := TailsOf(AfterReports(reports), phylog).Keys;
    forall node
      ensures node in kept <==> node in Reporters(reports, phylog)
    {
      ReportsKept(reports, phylog, node);
    }
    assert kept == Reporters(reports, phylog);
  }

  // ------------------------------------------------------------------------
  // Sealing

  ghost predicate HasQuorum(tails: map<(nat, nat), seq<MetaLog>>, phylog: nat, replicas: nat) {
    |TailsOf(tails, phylog)| >= Quorum(replicas)
  }

  ghost predicate AllReported(reports: seq<Report>, phylogs: seq<nat>, replicas: nat) {
    forall i :: 0 <= i < |phylogs| ==> |Reporters(reports, phylogs[i])| >= Quorum(replicas)
  }

  ghost predicate AllHaveQuorum(tails: map<(nat, nat), seq<MetaLog>>, phylogs: seq<nat>, replicas: nat) {
    forall i :: 0 <= i < |phylogs| ==> HasQuorum(tails, phylogs[i], replicas)
  }

  lemma {:induction false} AllQuorums(reports: seq<Report>, phylogs: seq<nat>, replicas: nat)
    ensures AllHaveQuorum(AfterReports(reports), phylogs, replicas) <==> AllReported(reports, phylogs, replicas)
  {
    forall i | 0 <= i < |phylogs|
      ensures HasQuorum(AfterReports(reports), phylogs[i], replicas) <==> |Reporters(reports, phylogs[i])| >= Quorum(replicas)
    {
      QuorumOfReporters(reports, phylogs[i], replicas);
    }
  }

  // Each log space has the final position and tail that its frozen tails give.
  ghost predicate Finals(tails: map<(nat, nat), seq<MetaLog>>, phylogs: seq<nat>, positions: seq<nat>,
                         finals: seq<seq<MetaLog>>) {
    && |positions| == |finals| == |phylogs|
    && forall i :: 0 <= i < |phylogs| ==> Merges(TailsOf(tails, phylogs[i]).Values, positions[i], finals[i])
  }

  lemma {:induction false} OneMoreFinal(tails: map<(nat, nat), seq<MetaLog>>, phylogs: seq<nat>, i: nat,
                                        positions: seq<nat>, finals: seq<seq<MetaLog>>, position: nat,
                                        final: seq<MetaLog>, replicas: nat)
    requires i < |phylogs| && Finals(tails, phylogs[..i], positions, finals) && AllHaveQuorum(tails, phylogs[..i], replicas)
    requires HasQuorum(tails, phylogs[i], replicas) && Merges(TailsOf(tails, phylogs[i]).Values, position, final)
    ensures Finals(tails, phylogs[..i + 1], positions + [position], finals + [final])
    ensures AllHaveQuorum(tails, phylogs[..i + 1], replicas)
  {
  }

  /** The controller while a view is being sealed. */
  class Controller {
    const view: nat
    const replicas: nat
    const phylogs: seq<nat>
    var ongoing: bool
    var tails: map<(nat, nat), seq<MetaLog>>
    var finalPositions: seq<nat>
    var finalTails: seq<seq<MetaLog>>
    ghost var reports: seq<Report>

    // The tails are those of the reports that have counted.
    ghost predicate Valid()
      reads this
    {
      tails == AfterReports(reports)
    }

    constructor (view: nat, replicas: nat, phylogs: seq<nat>)
      ensures this.view == view && this.replicas == replicas && this.phylogs == phylogs && ongoing && tails == map[]
      ensures Valid() && reports == []
    {
      reports := [];
      this.view, this.replicas, this.phylogs := view, replicas, phylogs;
      ongoing, tails := true, map[];
      finalPositions, finalTails := [], [];
    }

    method CollectedFor(phylog: nat) returns (parts: seq<seq<MetaLog>>)
      ensures |parts| == |TailsOf(tails, phylog)| && Parts(parts) == TailsOf(tails, phylog).Values
    {
      parts := [];
      var mine := TailsOf(tails, phylog);
      var rest := mine.Keys;
      while rest != {}
        invariant rest <= mine.Keys && |parts| + |rest| == |mine.Keys|
        invariant forall j :: 0 <= j < |parts| ==> parts[j] in mine.Values
        invariant forall node :: node in mine ==> node in rest || mine[node] in parts
        decreases rest
      {
        var node :| node in rest;
        parts := parts + [mine[node]];
        rest := rest - {node};
      }
    }

    /** Sealed when every log space has a quorum of frozen tails. */
    method CheckAllSealed() returns (sealed: bool, positions: seq<nat>, finals: seq<seq<MetaLog>>)
      ensures sealed <==> AllHaveQuorum(tails, phylogs, replicas)
      ensures sealed ==> Finals(tails, phylogs, positions, finals)
    {
      positions, finals := [], [];
      for i := 0 to |phylogs|
        invariant AllHaveQuorum(tails, phylogs[..i], replicas)
        invariant Finals(tails, phylogs[..i], positions, finals)
      {
        var collected := CollectedFor(phylogs[i]);
        if |collected| < Quorum(replicas) {
          assert !HasQuorum(tails, phylogs[i], replicas);
          return false, [], [];
        }
        var position, final := BuildFinalTailMetalog(collected);
        OneMoreFinal(tails, phylogs, i, positions, finals, position, final, replicas);
        positions, finals := positions + [position], finals + [final];
      }
      assert phylogs[..|phylogs|] == phylogs;
      sealed := true;
    }

    /** The view is sealed by the report with which a quorum of different sequencers has reported every log
        space, and only by that one; reports for another view are ignored. */
    method OnFreezeZNodeCreated(viewId: nat, node: nat, frozen: seq<FrozenTail>) returns (sealed: bool)
      requires Valid()
      modifies this
      ensures Valid()
      ensures !old(ongoing) || viewId != view ==>
                && !sealed && ongoing == old(ongoing) && tails == old(tails) && reports == old(reports)
                && finalPositions == old(finalPositions) && finalTails == old(finalTails)
      ensures old(ongoing) && viewId == view ==>
                && reports == old(reports) + [Report(node, frozen)] && ongoing == !sealed
                && (sealed <==> AllReported(reports, phylogs, replicas))
                && (sealed ==> Finals(tails, phylogs, finalPositions, finalTails))
                && (!sealed ==> finalPositions == old(finalPositions) && finalTails == old(finalTails))
    {
      if !ongoing || viewId != view {
        return false;
      }
      TakeReport(node, frozen);
      AllQuorums(reports, phylogs, replicas);
      var positions, finals;
      sealed, positions, finals := CheckAllSealed();
      if sealed {
        finalPositions, finalTails := positions, finals;
        ongoing := false;
      }
    }

    // The loop of OnFreezeZNodeCreated.
    method TakeReport(node: nat, frozen: seq<FrozenTail>)
      requires Valid()
      modifies this`tails, this`reports
      ensures Valid() && reports == old(reports) + [Report(node, frozen)]
    {
      for i := 0 to |frozen|
        invariant tails == WithFrozen(old(tails), node, frozen[..i]) && reports == old(reports)
      {
        assert frozen[..i + 1][..i] == frozen[..i];
        tails := tails[(PhylogOf(frozen[i].logspaceId), node) := frozen[i].metalogs];
      }
      assert frozen[..|frozen|] == frozen;
      reports := reports + [Report(node, frozen)];
      assert reports[..|reports| - 1] == old(reports);
    }
  }
}
