/**
 Transactions over the shared log (statestore).

 A transaction begins with a record, reads the state before it, and ends with a
 commit record that carries its writes.  Whether it has committed is decided later
 by every reader, from the records between the two, and cached in the auxiliary
 data of the commit record.
 */
module Transactions {
  import opened SharedLogs

  datatype Op = Op(objName: string, opType: int, path: string, value: string, intParam: int)

  datatype Body =
    | NormalOp(ops: seq<Op>)
    | TxnBegin
    | TxnAbort(txn: nat)
    | TxnCommit(ops: seq<Op>, txn: nat)

  type Log = seq<Record<Body>>

  predicate HasOps(b: Body) {
    b.NormalOp? || b.TxnCommit?
  }

  // fillWriteSet: nothing for other records.
  function WriteSet(b: Body): set<string> {
    if HasOps(b) then set op | op in b.ops :: op.objName else {}
  }

  predicate Overlaps(a: Body, b: Body) {
    WriteSet(a) * WriteSet(b) != {}
  }

  // The tags of objects, the transaction records and transaction histories differ in the low bits.
  const TXN_META_TAG: nat := 1
  function ObjectTag(hash: string -> nat, name: string): nat { (hash(name) * 8) % TWO64 + 2 }
  function HistoryTag(txn: nat): nat { (txn * 8) % TWO64 + 3 }

  // What the library appends; names may collide in their tag.
  predicate WellFormed(hash: string -> nat, r: Record<Body>) {
    match r.body
    case NormalOp(ops) =>
      && ops != [] && r.tags == {ObjectTag(hash, ops[0].objName)}
      && forall op :: op in ops ==> op.objName == ops[0].objName
    case TxnBegin => r.tags == {TXN_META_TAG}
    case TxnAbort(txn) => r.tags == {TXN_META_TAG, HistoryTag(txn)}
    case TxnCommit(ops, txn) =>
      r.tags == {TXN_META_TAG, HistoryTag(txn)} + (set op | op in ops :: ObjectTag(hash, op.objName))
  }

  // A transaction is named by the sequence number of its begin record.
  predicate Begun(log: Log, txn: nat, i: nat)
    requires i <= |log|
  {
    exists b :: 0 <= b < i && log[b].seqnum == txn && log[b].body.TxnBegin?
  }

  predicate ValidLog(hash: string -> nat, log: Log) {
    && Ordered(log)
    && (forall i {:trigger WellFormed(hash, log[i])} :: 0 <= i < |log| ==> WellFormed(hash, log[i]))
    && (forall i {:trigger Begun(log, log[i].body.txn, i)} ::
          0 <= i < |log| && log[i].body.TxnCommit? ==> Begun(log, log[i].body.txn, i))
  }

  // ------------------------------------------------------------------------
  // Which records take effect

  /** A plain write takes effect.  A commit record takes effect unless an effective record between the
      begin and the commit writes one of its objects: the first committer wins. */
  predicate Effective(log: Log, i: nat)
    requires i < |log|
    decreases i
  {
    match log[i].body
    case NormalOp(_) => true
    case TxnCommit(_, txn) =>
      forall j :: 0 <= j < i && log[j].seqnum > txn && Overlaps(log[i].body, log[j].body) ==> !Effective(log, j)
    case _ => false
  }

  // What speaks against a commit.
  ghost predicate Conflicts(log: Log, i: nat, j: nat)
    requires i < |log| && log[i].body.TxnCommit?
  {
    j < i && log[j].seqnum > log[i].body.txn && Overlaps(log[i].body, log[j].body) && Effective(log, j)
  }

  lemma {:induction false} EffectiveIff(log: Log, i: nat)
    requires i < |log| && log[i].body.TxnCommit?
    ensures Effective(log, i) <==> forall j: nat :: j < i ==> !Conflicts(log, i, j)
  {
    if Effective(log, i) {
      forall j: nat | j < i
        ensures !Conflicts(log, i, j)
      {
      }
    }
    if forall j: nat :: j < i ==> !Conflicts(log, i, j) {
      forall j | 0 <= j < i && log[j].seqnum > log[i].body.txn && Overlaps(log[i].body, log[j].body)
        ensures !Effective(log, j)
      {
        assert !Conflicts(log, i, j);
      }
    }
  }

  /** Whether a record takes effect is fixed once it is in the log. */
  lemma {:induction false} EffectiveStays(log: Log, more: Log, i: nat)
    requires i < |log|
    ensures Effective(log + more, i) <==> Effective(log, i)
    decreases i
  {
    forall j | 0 <= j < i
      ensures Effective(log + more, j) <==> Effective(log, j)
    {
      EffectiveStays(log, more, j);
    }
  }

  // ------------------------------------------------------------------------
  // Conflicts are found through tags

  // Records that share an object share its tag, whatever the hash function.
  lemma {:induction false} OverlapShowsInTag(hash: string -> nat, log: Log, i: nat, j: nat) returns (k: nat)
    requires ValidLog(hash, log) && i < |log| && j < |log| && HasOps(log[i].body) && Overlaps(log[i].body, log[j].body)
    ensures k < |log[i].body.ops| && ObjectTag(hash, log[i].body.ops[k].objName) in log[j].tags
  {
    var name :| name in WriteSet(log[i].body) && name in WriteSet(log[j].body);
    var op :| op in log[i].body.ops && op.objName == name;
    var op' :| op' in log[j].body.ops && op'.objName == name;
    assert WellFormed(hash, log[j]);
    k :| 0 <= k < |log[i].body.ops| && log[i].body.ops[k] == op;
  }

  // No conflict with record i among the records with a tag at sequence number s or later.
  ghost predicate NoneFrom(log: Log, i: nat, tag: nat, s: nat)
    requires i < |log| && log[i].body.TxnCommit?
  {
    forall j: nat :: j < i && tag in log[j].tags && log[j].seqnum >= s ==> !Conflicts(log, i, j)
  }

  ghost predicate Checked(log: Log, i: nat, tags: set<nat>)
    requires i < |log| && log[i].body.TxnCommit?
  {
    forall tag :: tag in tags ==> NoneFrom(log, i, tag, 0)
  }

  lemma {:induction false} AllCheckedCommits(hash: string -> nat, log: Log, i: nat, tags: set<nat>)
    requires ValidLog(hash, log) && i < |log| && log[i].body.TxnCommit? && Checked(log, i, tags)
    requires forall k :: 0 <= k < |log[i].body.ops| ==> ObjectTag(hash, log[i].body.ops[k].objName) in tags
    ensures Effective(log, i)
  {
    forall j: nat | j < i
      ensures !Conflicts(log, i, j)
    {
      if Overlaps(log[i].body, log[j].body) {
        var k := OverlapShowsInTag(hash, log, i, j);
        assert NoneFrom(log, i, ObjectTag(hash, log[i].body.ops[k].objName), 0);
      }
    }
    EffectiveIff(log, i);
  }
}
