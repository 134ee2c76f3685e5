/** What an object of the state store is worth: the replay of the records that take effect. */
module Objects {
  import opened SharedLogs
  import opened Transactions

  // The meaning of single write operations; everything below holds for any.
  datatype Semantics<!V> = Semantics(initial: V, apply: (V, Op) -> V, reply: (V, Op) -> string)

  function ApplyOps<V>(sem: Semantics<V>, v: V, ops: seq<Op>, name: string): V {
    if ops == [] then v
    else
      var w := ApplyOps(sem, v, ops[..|ops| - 1], name);
      var op := ops[|ops| - 1];
      if op.objName == name then sem.apply(w, op) else w
  }

  /** Operations take effect one after another, each on what the ones before it have made of the object. */
  lemma {:induction false} ApplyOpsConcat<V>(sem: Semantics<V>, v: V, a: seq<Op>, b: seq<Op>, name: string)
    ensures ApplyOps(sem, v, a + b, name) == ApplyOps(sem, ApplyOps(sem, v, a, name), b, name)
  {
    if b == [] {
      assert a + b == a;
    } else {
      assert (a + b)[..|a + b| - 1] == a + b[..|b| - 1];
      ApplyOpsConcat(sem, v, a, b[..|b| - 1], name);
    }
  }

  /** One operation changes its own object and no other; none changes nothing. */
  lemma {:induction false} ApplyOpsOne<V>(sem: Semantics<V>, v: V, op: Op, name: string)
    ensures ApplyOps(sem, v, [op], name) == if op.objName == name then sem.apply(v, op) else v
    ensures ApplyOps(sem, v, [], name) == v
  {
    assert [op][..0] == [];
  }

  predicate Writes(log: Log, i: nat, name: string)
    requires i < |log|
  {
    name in WriteSet(log[i].body) && Effective(log, i)
  }

  // The object after the first n records.
  function Replay<V>(sem: Semantics<V>, log: Log, name: string, n: nat): V
    requires n <= |log|
  {
    if n == 0 then sem.initial
    else
      var v := Replay(sem, log, name, n - 1);
      if Writes(log, n - 1, name) then ApplyOps(sem, v, log[n - 1].body.ops, name) else v
  }

  // All operations of the effective records among the first n, in order.
  function History(log: Log, n: nat): seq<Op>
    requires n <= |log|
  {
    if n == 0 then []
    else History(log, n - 1) + if HasOps(log[n - 1].body) && Effective(log, n - 1) then log[n - 1].body.ops else []
  }

  /** An object is the history of all effective operations applied to an empty object, in log order. */
  lemma {:induction false} ReplayIsHistory<V>(sem: Semantics<V>, log: Log, name: string, n: nat)
    requires n <= |log|
    ensures Replay(sem, log, name, n) == ApplyOps(sem, sem.initial, History(log, n), name)
  {
    if n > 0 {
      ReplayIsHistory(sem, log, name, n - 1);
      if HasOps(log[n - 1].body) && Effective(log, n - 1) {
        ApplyOpsConcat(sem, sem.initial, History(log, n - 1), log[n - 1].body.ops, name);
        if !Writes(log, n - 1, name) {
          OthersOps(sem, Replay(sem, log, name, n - 1), log[n - 1].body.ops, name);
        }
      } else {
        assert History(log, n) == History(log, n - 1);
      }
    }
  }

  lemma {:induction false} OthersOps<V>(sem: Semantics<V>, v: V, ops: seq<Op>, name: string)
    requires forall op :: op in ops ==> op.objName != name
    ensures ApplyOps(sem, v, ops, name) == v
  {
    if ops != [] {
      OthersOps(sem, v, ops[..|ops| - 1], name);
    }
  }

  // The records that change the object.
  ghost function Writers(log: Log, name: string): set<nat> {
    set i: nat | i < |log| && Writes(log, i, name)
  }

  lemma {:induction false} ReplaySkips<V>(sem: Semantics<V>, log: Log, name: string, a: nat, b: nat)
    requires a <= b <= |log| && NoneIn(Writers(log, name), a, b)
    ensures Replay(sem, log, name, b) == Replay(sem, log, name, a)
    decreases b
  {
    if a < b {
      assert b - 1 !in Writers(log, name);
      ReplaySkips(sem, log, name, a, b - 1);
    }
  }

  lemma {:induction false} WritersStay(log: Log, more: Log, name: string)
    ensures forall i: nat :: i < |log| ==> (i in Writers(log + more, name) <==> i in Writers(log, name))
  {
    forall i: nat | i < |log|
      ensures i in Writers(log + more, name) <==> i in Writers(log, name)
    {
      EffectiveStays(log, more, i);
    }
  }

  lemma {:induction false} ReplayStays<V>(sem: Semantics<V>, log: Log, more: Log, name: string, n: nat)
    requires n <= |log|
    ensures Replay(sem, log + more, name, n) == Replay(sem, log, name, n)
  {
    if n > 0 {
      ReplayStays(sem, log, more, name, n - 1);
      EffectiveStays(log, more, n - 1);
    }
  }

  /** No lost update: when a transaction commits, every object it writes still has the value it had in
      the snapshot the transaction read, so the commit is as if the transaction ran at that point. */
  lemma {:induction false} CommittedReadsCurrent<V>(sem: Semantics<V>, hash: string -> nat, log: Log, i: nat,
                                                    name: string)
    requires ValidLog(hash, log) && i < |log| && log[i].body.TxnCommit? && Effective(log, i) && name in WriteSet(log[i].body)
    ensures Replay(sem, log, name, i) == Replay(sem, log, name, Below(log, log[i].body.txn))
  {
    var txn := log[i].body.txn;
    assert Begun(log, txn, i);
    var b :| 0 <= b < i && log[b].seqnum == txn && log[b].body.TxnBegin?;
    BelowAt(log, b);
    forall j: nat | Below(log, txn) <= j < i
      ensures j !in Writers(log, name)
    {
      if j > b && name in WriteSet(log[j].body) {
        assert name in WriteSet(log[i].body) * WriteSet(log[j].body);
        assert !Effective(log, j);
      }
    }
    ReplaySkips(sem, log, name, Below(log, txn), i);
  }

  /** Of two committed transactions that write a common object, one has ended before the other began. */
  lemma {:induction false} CommittedInTurn(hash: string -> nat, log: Log, i: nat, k: nat)
    requires ValidLog(hash, log) && i < k < |log| && log[i].body.TxnCommit? && log[k].body.TxnCommit?
    requires Effective(log, i) && Effective(log, k) && Overlaps(log[k].body, log[i].body)
    ensures log[i].seqnum < log[k].body.txn
  {
    var txn := log[k].body.txn;
    assert Begun(log, txn, k);
    var b :| 0 <= b < k && log[b].seqnum == txn && log[b].body.TxnBegin?;
    assert b != i;
  }

  // ------------------------------------------------------------------------
  // Objects that a transaction reads and does not write

  // Operations that are told apart by every object.
  const COUNTING: Semantics<int> := Semantics(0, (n, op) => n + 1, (n, op) => "")

  lemma {:induction false} CountingGrows(ops: seq<Op>, n: int, name: string)
    ensures ApplyOps(COUNTING, n, ops, name) >= n
    ensures (exists op :: op in ops && op.objName == name) ==> ApplyOps(COUNTING, n, ops, name) > n
  {
    if ops != [] {
      var front := ops[..|ops| - 1];
      CountingGrows(front, n, name);
      assert ops == front + [ops[|ops| - 1]];
      if op :| op in ops && op.objName == name {
        assert op in front || op == ops[|ops| - 1];
      }
    }
  }

  lemma {:induction false} CountingReplay(log: Log, name: string, a: nat, b: nat)
    requires a <= b <= |log|
    ensures Replay(COUNTING, log, name, a) <= Replay(COUNTING, log, name, b)
    ensures Replay(COUNTING, log, name, a) == Replay(COUNTING, log, name, b) ==> NoneIn(Writers(log, name), a, b)
    decreases b
  {
    if a < b {
      CountingReplay(log, name, a, b - 1);
      if Writes(log, b - 1, name) {
        CountingGrows(log[b - 1].body.ops, Replay(COUNTING, log, name, b - 1), name);
        var op :| op in log[b - 1].body.ops && op.objName == name;
      }
    }
  }

  /** Whatever a transaction has read, written or not, is still current at its commit record, for every
      meaning of operations, if and only if no effective record in between writes the object: it is if
      there is none, and for operations that count it is not if there is one. */
  lemma {:induction false} ReadCurrentIff<V>(sem: Semantics<V>, log: Log, txn: nat, i: nat, name: string)
    requires i <= |log| && Below(log, txn) <= i
    ensures NoneIn(Writers(log, name), Below(log, txn), i) ==>
              Replay(sem, log, name, i) == Replay(sem, log, name, Below(log, txn))
    ensures NoneIn(Writers(log, name), Below(log, txn), i) <==>
              Replay(COUNTING, log, name, i) == Replay(COUNTING, log, name, Below(log, txn))
  {
    CountingReplay(log, name, Below(log, txn), i);
    if NoneIn(Writers(log, name), Below(log, txn), i) {
      ReplaySkips(sem, log, name, Below(log, txn), i);
      ReplaySkips(COUNTING, log, name, Below(log, txn), i);
    }
  }

  function SkewLog(hash: string -> nat, x: Op, y: Op): Log {
    [Record(1, {TXN_META_TAG}, TxnBegin),
     Record(2, {TXN_META_TAG}, TxnBegin),
     Record(3, {TXN_META_TAG, HistoryTag(1), ObjectTag(hash, x.objName)}, TxnCommit([x], 1)),
     Record(4, {TXN_META_TAG, HistoryTag(2), ObjectTag(hash, y.objName)}, TxnCommit([y], 2))]
  }

  lemma {:induction false} SkewValid(hash: string -> nat, x: Op, y: Op)
    ensures ValidLog(hash, SkewLog(hash, x, y))
  {
    var log := SkewLog(hash, x, y);
    assert log[0].body.TxnBegin? && log[1].body.TxnBegin?;
    assert WellFormed(hash, log[0]) && WellFormed(hash, log[1]);
    assert (set op | op in [x] :: ObjectTag(hash, op.objName)) == {ObjectTag(hash, x.objName)};
    assert (set op | op in [y] :: ObjectTag(hash, op.objName)) == {ObjectTag(hash, y.objName)};
    assert WellFormed(hash, log[2]) && WellFormed(hash, log[3]);
    assert Begun(log, 1, 2) && Begun(log, 2, 3);
  }

  /** Write skew: of two transactions with disjoint writes both commit, though the first changes an object
      that the second may have read in its snapshot. */
  lemma {:induction false} WriteSkew(hash: string -> nat, x: Op, y: Op)
    requires x.objName != y.objName
    ensures var log := SkewLog(hash, x, y);
            && ValidLog(hash, log) && Effective(log, 2) && Effective(log, 3)
            && x.objName !in WriteSet(log[3].body) && Below(log, 2) == 1
            && Replay(COUNTING, log, x.objName, 3) != Replay(COUNTING, log, x.objName, Below(log, 2))
  {
    var log := SkewLog(hash, x, y);
    SkewValid(hash, x, y);
    BelowAt(log, 1);
    assert WriteSet(log[2].body) == {x.objName} by { assert x in [x]; }
    assert WriteSet(log[3].body) == {y.objName} by { assert y in [y]; }
    assert Effective(log, 2) && Effective(log, 3);
    assert 2 in Writers(log, x.objName);
    ReadCurrentIff(COUNTING, log, 2, 3, x.objName);
  }
}
