/**
 LogSpaceBase: how a node consumes the metalogs of a log space.

 In full mode metalogs are applied strictly in order.  In lite mode a node is
 interested in some shards only and may skip metalogs.  `Space` and the functions
 on it say what the source's loops compute; class `LogSpace` has the loops.  The
 OnNewLogs hook of the subclasses appears as the list of calls made to it.
 */
module LogSpaces {
  import opened MetaLogs

  datatype Mode = Lite | Full

  // One call of the OnNewLogs hook.
  datatype NewLogs = NewLogs(metalog: nat, shard: nat, startSeqnum: nat, startLocal: nat, delta: nat)

  datatype Space = Space(
    mode: Mode,
    interested: set<nat>,
    position: nat,
    seqnumPosition: nat,
    progress: seq<nat>,
    pending: map<nat, MetaLog>,
    applied: seq<MetaLog>)

  // A space after a message, and the hook calls made while handling it.
  datatype Outcome = Outcome(space: Space, calls: seq<NewLogs>)

  function Fresh(mode: Mode, interested: set<nat>, n: nat): Space {
    Space(mode, interested, 0, 0, seq(n, _ => 0), map[], [])
  }

  ghost predicate ValidSpace(sp: Space) {
    && (forall i :: i in sp.interested ==> i < |sp.progress|)
    && (forall k :: k in sp.pending ==> sp.pending[k].seqnum == k && WellFormed(sp.pending[k], |sp.progress|))
  }

  function Shards(n: nat): (r: set<nat>)
    ensures forall i: nat :: i in r <==> i < n
  {
    if n == 0 then {} else Shards(n - 1) + {n - 1}
  }

  // The shards whose new entries the hook is told about.
  function Heard(sp: Space): set<nat> {
    if sp.mode.Full? then Shards(|sp.progress|) else sp.interested
  }

  predicate CanApply(sp: Space, m: MetaLog)
    requires WellFormed(m, |sp.progress|) && forall i :: i in sp.interested ==> i < |sp.progress|
  {
    match sp.mode
    case Full => m.seqnum == sp.position
    case Lite => forall i :: i in sp.interested ==> m.starts[i] <= sp.progress[i]
  }

  function CallFor(m: MetaLog, i: nat): NewLogs
    requires i < |m.starts| == |m.deltas|
  {
    NewLogs(m.seqnum, i, m.startSeqnum + Sum(m.deltas[..i]), m.starts[i], m.deltas[i])
  }

  // The hook calls for the first `i` shards of a metalog.
  function CallsUpTo(m: MetaLog, heard: set<nat>, i: nat): seq<NewLogs>
    requires i <= |m.starts| == |m.deltas|
  {
    if i == 0 then []
    else CallsUpTo(m, heard, i - 1) + if i - 1 in heard then [CallFor(m, i - 1)] else []
  }

  function CallsOf(m: MetaLog, heard: set<nat>): seq<NewLogs>
    requires |m.starts| == |m.deltas|
  {
    CallsUpTo(m, heard, |m.deltas|)
  }

  function AfterCut(m: MetaLog): seq<nat>
    requires |m.starts| == |m.deltas|
  {
    seq(|m.deltas|, i requires 0 <= i < |m.deltas| => m.starts[i] + m.deltas[i])
  }

  function Apply(sp: Space, m: MetaLog): Space
    requires WellFormed(m, |sp.progress|)
  {
    sp.(progress := AfterCut(m),
        seqnumPosition := EndSeqnum(m),
        position := m.seqnum + 1,
        applied := if sp.mode.Full? then sp.applied + [m] else sp.applied)
  }

  // The first key of an ordered map.
  ghost function Least(s: set<nat>): (k: nat)
    requires s != {}
    ensures k in s && forall j :: j in s ==> k <= j
  {
    var x :| x in s;
    if s == {x} then x
    else
      assert s - {x} != {};
      var y := Least(s - {x});
      assert forall j :: j in s ==> j == x || j in s - {x};
      if x < y then x else y
  }

  // What the loop over pending_metalogs_ computes.
  ghost function Advance(sp: Space): (o: Outcome)
    requires ValidSpace(sp)
    ensures ValidSpace(o.space) && |o.space.progress| == |sp.progress|
    ensures o.space.mode == sp.mode && o.space.interested == sp.interested
    ensures o.space.position >= sp.position
    decreases |sp.pending|
  {
    if sp.pending == map[] then Outcome(sp, [])
    else
      var k := Least(sp.pending.Keys);
      var m := sp.pending[k];
      var rest := sp.pending - {k};
      assert rest.Keys == sp.pending.Keys - {k};
      assert |rest| < |sp.pending| by { assert |rest.Keys| == |sp.pending.Keys| - 1; }
      if k < sp.position then Advance(sp.(pending := rest))
      else if !CanApply(sp, m) then Outcome(sp, [])
      else
        var o := Advance(Apply(sp, m).(pending := rest));
        Outcome(o.space, CallsOf(m, Heard(sp)) + o.calls)
  }

  ghost function Provide(sp: Space, m: MetaLog): (o: Outcome)
    requires ValidSpace(sp) && WellFormed(m, |sp.progress|)
    ensures ValidSpace(o.space) && |o.space.progress| == |sp.progress|
    ensures o.space.mode == sp.mode && o.space.interested == sp.interested
    ensures o.space.position >= sp.position
  {
    if m.seqnum < sp.position then Outcome(sp, []) else Advance(sp.(pending := sp.pending[m.seqnum := m]))
  }

  ghost function ProvideAll(sp: Space, ms: seq<MetaLog>): (o: Outcome)
    requires ValidSpace(sp) && forall j :: 0 <= j < |ms| ==> WellFormed(ms[j], |sp.progress|)
    ensures ValidSpace(o.space) && |o.space.progress| == |sp.progress|
    ensures o.space.mode == sp.mode && o.space.interested == sp.interested
  {
    if ms == [] then Outcome(sp, [])
    else
      var o := ProvideAll(sp, ms[..|ms| - 1]);
      var p := Provide(o.space, ms[|ms| - 1]);
      Outcome(p.space, o.calls + p.calls)
  }

  // `SeenFuture` and `Overshot` are the two aborts, `Insufficient` the error return.
  datatype FinalizeResult = Finalized | Insufficient | SeenFuture | Overshot

  function FinalizeResultAt(position: nat, reached: nat, finalPosition: nat): FinalizeResult {
    if position == finalPosition then Finalized
    else if position > finalPosition + 1 then SeenFuture
    else if position > finalPosition then Finalized
    else if reached < finalPosition then Insufficient
    else if reached > finalPosition then Overshot
    else Finalized
  }

  // ------------------------------------------------------------------------
  // The source's loops

  class LogSpace {
    const mode: Mode
    const interested: set<nat>
    var position: nat
    var seqnumPosition: nat
    const shardProgress: array<nat>
    var pending: map<nat, MetaLog>
    var applied: seq<MetaLog>
    var frozen: bool
    var calls: seq<NewLogs>

    ghost function Model(): Space
      reads this, shardProgress
    {
      Space(mode, interested, position, seqnumPosition, shardProgress[..], pending, applied)
    }

    ghost predicate Valid()
      reads this, shardProgress
    {
      ValidSpace(Model())
    }

    constructor (mode: Mode, interested: set<nat>, n: nat)
      requires forall i :: i in interested ==> i < n
      ensures Valid() && Model() == Fresh(mode, interested, n) && fresh(shardProgress)
      ensures !frozen && calls == []
    {
      this.mode, this.interested := mode, interested;
      position, seqnumPosition, pending, applied := 0, 0, map[], [];
      frozen, calls := false, [];
      shardProgress := new nat[n](_ => 0);
      new;
      assert shardProgress[..] == seq(n, _ => 0);
    }

    method CanApplyMetaLog(m: MetaLog) returns (ok: bool)
      requires Valid() && WellFormed(m, shardProgress.Length)
      ensures ok <==> CanApply(Model(), m)
    {
      if mode.Full? {
        return m.seqnum == position;
      }
      var todo := interested;
      while todo != {}
        invariant todo <= interested
        invariant forall i :: i in interested - todo ==> m.starts[i] <= shardProgress[i]
        decreases todo
      {
        var i :| i in todo;
        if m.starts[i] > shardProgress[i] {
          return false;
        }
        todo := todo - {i};
      }
      ok := true;
    }

    method ApplyMetaLog(m: MetaLog)
      requires Valid() && WellFormed(m, shardProgress.Length)
      modifies this`seqnumPosition, this`calls, shardProgress
      ensures seqnumPosition == EndSeqnum(m) && shardProgress[..] == AfterCut(m)
      ensures calls == old(calls) + CallsOf(m, Heard(old(Model())))
    {
      var startSeqnum := m.startSeqnum;
      ghost var heard := Heard(Model());
      for i := 0 to shardProgress.Length
        invariant startSeqnum == m.startSeqnum + Sum(m.deltas[..i])
        invariant forall j :: 0 <= j < i ==> shardProgress[j] == m.starts[j] + m.deltas[j]
        invariant calls == old(calls) + CallsUpTo(m, heard, i)
      {
        if mode.Full? || i in interested {
          calls := calls + [NewLogs(m.seqnum, i, startSeqnum, m.starts[i], m.deltas[i])];
        }
        shardProgress[i] := m.starts[i] + m.deltas[i];
        SumPrefixStep(m.deltas, i);
        startSeqnum := startSeqnum + m.deltas[i];
      }
      assert m.deltas[..|m.deltas|] == m.deltas;
      seqnumPosition := startSeqnum;
    }

    method FirstPending() returns (k: nat)
      requires pending != map[]
      ensures k == Least(pending.Keys)
    {
      var rest := pending.Keys;
      k :| k in rest;
      rest := rest - {k};
      while rest != {}
        invariant k in pending.Keys && rest <= pending.Keys
        invariant forall j :: j in pending.Keys ==> j in rest || k <= j
        decreases rest
      {
        var j :| j in rest;
        rest := rest - {j};
        if j < k {
          k := j;
        }
      }
    }

    // One turn of the loop in AdvanceMetaLogProgress; false when the loop breaks.
    method AdvanceOnce() returns (more: bool)
      requires Valid() && pending != map[]
      modifies this, shardProgress
      ensures frozen == old(frozen)
      ensures var sp := old(Model());
              var k := Least(sp.pending.Keys);
              if k < sp.position then
                more && Model() == sp.(pending := sp.pending - {k}) && calls == old(calls)
              else if !CanApply(sp, sp.pending[k]) then
                !more && Model() == sp && calls == old(calls)
              else
                && more && Model() == Apply(sp, sp.pending[k]).(pending := sp.pending - {k})
                && calls == old(calls) + CallsOf(sp.pending[k], Heard(sp))
    {
      var k := FirstPending();
      var m := pending[k];
      if k < position {
        pending := pending - {k};
        return true;
      }
      more := CanApplyMetaLog(m);
      if more {
        ApplyMetaLog(m);
        if mode.Full? {
          applied := applied + [m];
        }
        position := m.seqnum + 1;
        pending := pending - {k};
      }
    }

    method AdvanceMetaLogProgress()
      requires Valid()
      modifies this, shardProgress
      ensures Valid() && frozen == old(frozen)
      ensures Model() == Advance(old(Model())).space
      ensures calls == old(calls) + Advance(old(Model())).calls
    {
      var more := true;
      while more && pending != map[]
        invariant Valid() && frozen == old(frozen)
        invariant Advance(Model()).space == Advance(old(Model())).space
        invariant calls + Advance(Model()).calls == old(calls) + Advance(old(Model())).calls
        invariant !more ==> Advance(Model()) == Outcome(Model(), [])
        decreases more, |pending|
      {
        ghost var before, callsBefore := Model(), calls;
        ghost var k := Least(pending.Keys);
        assert (pending - {k}).Keys == pending.Keys - {k};
        assert |(pending - {k}).Keys| == |pending.Keys| - 1;
        more := AdvanceOnce();
        if more && position > before.position {
          var hooked := CallsOf(before.pending[k], Heard(before));
          Associative(callsBefore, hooked, Advance(Model()).calls);
        }
      }
    }

    method ProvideMetaLog(m: MetaLog) returns (advanced: bool)
      requires Valid() && WellFormed(m, shardProgress.Length)
      modifies this, shardProgress
      ensures Valid() && frozen == old(frozen)
      ensures Model() == Provide(old(Model()), m).space
      ensures calls == old(calls) + Provide(old(Model()), m).calls
      ensures advanced <==> position > old(position)
    {
      if m.seqnum < position {
        return false;
      }
      pending := pending[m.seqnum := m];
      var previous := position;
      assert Model() == old(Model()).(pending := pending);
      AdvanceMetaLogProgress();
      advanced := position > previous;
    }

    method Freeze()
      modifies this`frozen
      ensures frozen
    {
      frozen := true;
    }

    method Finalize(finalPosition: nat, tail: seq<MetaLog>) returns (r: FinalizeResult)
      requires Valid() && forall j :: 0 <= j < |tail| ==> WellFormed(tail[j], shardProgress.Length)
      modifies this, shardProgress
      ensures Valid()
      ensures r == FinalizeResultAt(old(position), ProvideAll(old(Model()), tail).space.position, finalPosition)
      ensures old(position) < finalPosition ==>
                Model() == ProvideAll(old(Model()), tail).space && calls == old(calls) + ProvideAll(old(Model()), tail).calls
      ensures old(position) >= finalPosition ==> Model() == old(Model()) && calls == old(calls)
    {
      if position == finalPosition {
        return Finalized;
      }
      if position > finalPosition {
        if position > finalPosition + 1 {
          return SeenFuture;
        }
        return Finalized;
      }
      for j := 0 to |tail|
        invariant Valid() && Model() == ProvideAll(old(Model()), tail[..j]).space
        invariant calls == old(calls) + ProvideAll(old(Model()), tail[..j]).calls
      {
        assert tail[..j + 1][..j] == tail[..j];
        Associative(old(calls), ProvideAll(old(Model()), tail[..j]).calls, Provide(Model(), tail[j]).calls);
        var _ := ProvideMetaLog(tail[j]);
      }
      assert tail[..|tail|] == tail;
      if position < finalPosition {
        return Insufficient;
      } else if position > finalPosition {
        return Overshot;
      }
      r := Finalized;
    }
  }
}
