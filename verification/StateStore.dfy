/**
 The state store's view of the shared log: checking commits, bringing an object up
 to date, and writing.  Auxiliary data of records is a cache that other processes
 write, and that may be lost, at any time.
 */
module StateStore {
  import opened Options
  import opened SharedLogs
  import opened Transactions
  import opened Objects

  // The cached object after a plain write, or the outcome of a transaction and the objects after it.
  datatype Aux<V> = NormalAux(contents: V) | CommitAux(result: Option<bool>, views: map<string, V>)

  predicate ValidAux<V(==)>(sem: Semantics<V>, log: Log, i: nat, a: Aux<V>) {
    && i < |log|
    && match log[i].body
       case NormalOp(ops) =>
         a.NormalAux? && forall name :: name in WriteSet(log[i].body) ==> a.contents == Replay(sem, log, name, i + 1)
       case TxnCommit(_, _) =>
         && a.CommitAux?
         && (a.result.Some? ==> a.result.value == Effective(log, i))
         && (forall name :: name in a.views ==> a.views[name] == Replay(sem, log, name, i + 1))
       case _ => false
  }

  predicate AllAux<V(==)>(sem: Semantics<V>, log: Log, aux: map<nat, Aux<V>>) {
    forall i :: i in aux ==> ValidAux(sem, log, i, aux[i])
  }

  lemma {:induction false} AuxStays<V>(sem: Semantics<V>, log: Log, more: Log, aux: map<nat, Aux<V>>)
    requires AllAux(sem, log, aux)
    ensures AllAux(sem, log + more, aux)
  {
    forall i | i in aux
      ensures ValidAux(sem, log + more, i, aux[i])
    {
      var n := i + 1;
      EffectiveStays(log, more, i);
      forall name: string
        ensures Replay(sem, log + more, name, n) == Replay(sem, log, name, n)
      {
        ReplayStays(sem, log, more, name, n);
      }
    }
  }

  lemma {:induction false} ValidMore(hash: string -> nat, log: Log, r: Record<Body>)
    requires ValidLog(hash, log) && WellFormed(hash, r) && NextSeqnum(log) <= r.seqnum < MAX_SEQNUM
    requires r.body.TxnCommit? ==> Begun(log, r.body.txn, |log|)
    ensures ValidLog(hash, log + [r])
  {
    var log' := log + [r];
    OrderedMore(log, r);
    forall i | 0 <= i < |log'|
      ensures WellFormed(hash, log'[i])
    {
      assert i < |log| ==> WellFormed(hash, log[i]);
    }
    forall i | 0 <= i < |log'| && log'[i].body.TxnCommit?
      ensures Begun(log', log'[i].body.txn, i)
    {
      assert i < |log| ==> Begun(log, log[i].body.txn, i);
      assert log == log'[..|log|];
      BegunStays(log, log', log'[i].body.txn, i);
    }
  }

  lemma {:induction false} SameForm(hash: string -> nat, r: Record<Body>, r': Record<Body>)
    ensures r.tags == r'.tags && r.body == r'.body && WellFormed(hash, r') ==> WellFormed(hash, r)
  {
  }

  lemma {:induction false} BegunStays(log: Log, log': Log, txn: nat, i: nat)
    requires i <= |log| <= |log'| && log == log'[..|log|] && Begun(log, txn, i)
    ensures Begun(log', txn, i)
  {
    var b :| 0 <= b < i && log[b].seqnum == txn && log[b].body.TxnBegin?;
    assert log'[b] == log[b];
  }

  lemma {:induction false} OneAppended(hash: string -> nat, log: Log, tags: set<nat>, body: Body) returns (log': Log)
    requires ValidLog(hash, log) && Room(log) && WellFormed(hash, Record(0, tags, body))
    requires body.TxnCommit? ==> Begun(log, body.txn, |log|)
    ensures ValidLog(hash, log') && Appended(log, log', tags, body)
  {
    var r := Record(NextSeqnum(log), tags, body);
    SameForm(hash, r, Record(0, tags, body));
    ValidMore(hash, log, r);
    log' := log + [r];
  }

  // txnContext: a transaction, named by the position of its snapshot.
  class TxnContext {
    const id: nat
    const readonly: bool
    var active: bool
    var ops: seq<Op>

    constructor (id: nat, readonly: bool)
      ensures this.id == id && this.readonly == readonly && active && ops == []
    {
      this.id, this.readonly, active, ops := id, readonly, true, [];
    }
  }

  class Env<V(==)> {
    const sem: Semantics<V>
    const hash: string -> nat
    const useAux: bool
    var log: Log
    var aux: map<nat, Aux<V>>

    ghost predicate Valid()
      reads this
    {
      ValidLog(hash, log) && AllAux(sem, log, aux)
    }

    constructor (sem: Semantics<V>, hash: string -> nat, useAux: bool)
      ensures Valid() && log == [] && aux == map[]
      ensures this.sem == sem && this.hash == hash && this.useAux == useAux
    {
      this.sem, this.hash, this.useAux := sem, hash, useAux;
      log, aux := [], map[];
    }

    // The auxiliary data read with a record: whatever is left of what this and other processes wrote.
    method Load(i: nat) returns (a: Option<Aux<V>>)
      requires Valid() && i < |log|
      modifies this`aux
      ensures Valid() && (a.Some? ==> ValidAux(sem, log, i, a.value))
    {
      assert AllAux(sem, log, map[]);
      var left: map<nat, Aux<V>> :| AllAux(sem, log, left);
      assert AllAux(sem, log, left);
      assert i in left ==> ValidAux(sem, log, i, left[i]);
      aux := left;
      a := if i in aux then Some(aux[i]) else None;
    }

    /** Appends a record, after whatever others append meanwhile; returns its position. */
    method Append(tags: set<nat>, body: Body) returns (i: nat)
      requires Valid() && Room(log) && WellFormed(hash, Record(0, tags, body))
      requires body.TxnCommit? ==> Begun(log, body.txn, |log|)
      modifies this`log
      ensures Valid() && Appended(old(log), log, tags, body) && i == |log| - 1
    {
      ghost var one := OneAppended(hash, log, tags, body);
      var log': Log :| ValidLog(hash, log') && Appended(log, log', tags, body);
      assert Appended(log, log', tags, body);
      LogGrows(log');
      i := |log| - 1;
    }

    /** Other processes append. */
    method Others()
      requires Valid()
      modifies this`log
      ensures Valid() && old(log) <= log
    {
      assert ValidLog(hash, log) && log <= log;
      var log': Log :| ValidLog(hash, log') && log <= log';
      LogGrows(log');
    }

    method LogGrows(log': Log)
      requires Valid() && ValidLog(hash, log') && log <= log'
      modifies this`log
      ensures Valid() && log == log'
    {
      assert log' == log + log'[|log|..];
      AuxStays(sem, log, log'[|log|..], aux);
      log := log';
    }

    method SetAux(i: nat, a: Aux<V>)
      requires Valid() && ValidAux(sem, log, i, a)
      modifies this`aux
      ensures Valid() && aux == old(aux)[i := a]
    {
      aux := aux[i := a];
    }

    /** Whether a transaction has committed.  The answer does not depend on the hash function, on
        what is cached, or on anything after the commit record; what is cached is right. */
    method CheckTxnCommitResult(i: nat, a: Option<Aux<V>>) returns (committed: bool, a': Aux<V>)
      requires Valid() && i < |log| && log[i].body.TxnCommit? && (a.Some? ==> ValidAux(sem, log, i, a.value))
      modifies this`aux
      ensures Valid() && (committed <==> Effective(log, i))
      ensures ValidAux(sem, log, i, a') && (a.Some? ==> a.value.CommitAux?)
      ensures a' == CommitAux(Some(committed), if a.Some? then a.value.views else map[])
      ensures useAux && (a.None? || a.value.result.None?) ==> i in aux && aux[i] == a'
      decreases i, 1, 0
    {
      a' := if a.Some? then a.value else CommitAux(None, map[]);
      if a'.result.Some? {
        return a'.result.value, a';
      }
      committed := true;
      var checked: set<nat> := {};
      var ops := log[i].body.ops;
      var k := 0;
      while k < |ops| && committed
        invariant Valid() && k <= |ops|
        invariant if committed then Checked(log, i, checked) else !Effective(log, i)
        invariant committed ==> forall x :: 0 <= x < k ==> ObjectTag(hash, ops[x].objName) in checked
      {
        var tag := ObjectTag(hash, ops[k].objName);
        if tag !in checked {
          committed := CheckTag(i, tag);
          if committed {
            checked := checked + {tag};
          }
        }
        k := k + 1;
      }
      if committed {
        AllCheckedCommits(hash, log, i, checked);
      }
      a' := a'.(result := Some(committed));
      if useAux {
        SetAux(i, a');
      }
    }

    // Whether nothing with this tag speaks against the commit.
    method CheckTag(i: nat, tag: nat) returns (ok: bool)
      requires Valid() && i < |log| && log[i].body.TxnCommit?
      modifies this`aux
      ensures Valid() && if ok then NoneFrom(log, i, tag, 0) else !Effective(log, i)
      decreases i, 0, 1
    {
      var txn: nat, seqnum: nat := log[i].body.txn, log[i].seqnum;
      SelfFrom(log, i, tag);
      while seqnum > txn
        invariant Valid() && seqnum <= log[i].seqnum && NoneFrom(log, i, tag, seqnum)
        decreases seqnum
      {
        var r := ReadPrev(log, tag, seqnum - 1);
        CheckedDownTo(log, i, tag, seqnum);
        if r.None? || log[r.value].seqnum <= txn {
          return true;
        }
        seqnum := log[r.value].seqnum;
        var conflict := CheckOne(i, r.value);
        if conflict {
          EffectiveIff(log, i);
          return false;
        }
      }
      ok := true;
    }

    method CheckOne(i: nat, j: nat) returns (conflict: bool)
      requires Valid() && j < i < |log| && log[i].body.TxnCommit? && log[j].seqnum > log[i].body.txn
      modifies this`aux
      ensures Valid() && (conflict <==> Conflicts(log, i, j))
      decreases i, 0, 0
    {
      var a := Load(j);
      if !Overlaps(log[i].body, log[j].body) {
        return false;
      }
      if log[j].body.NormalOp? {
        return true;
      } else if log[j].body.TxnCommit? {
        var committed, _ := CheckTxnCommitResult(j, a);
        return committed;
      }
      conflict := false;
    }
  }

  lemma {:induction false} SelfFrom(log: Log, i: nat, tag: nat)
    requires Ordered(log) && i < |log| && log[i].body.TxnCommit?
    ensures NoneFrom(log, i, tag, log[i].seqnum)
  {
  }

  // One more record with the tag has been looked at, or there is none left.
  lemma {:induction false} CheckedDownTo(log: Log, i: nat, tag: nat, s: nat)
    requires Ordered(log) && i < |log| && log[i].body.TxnCommit? && log[i].body.txn < s <= log[i].seqnum
    requires NoneFrom(log, i, tag, s)
    ensures var r := ReadPrev(log, tag, s - 1);
            if r.None? || log[r.value].seqnum <= log[i].body.txn then NoneFrom(log, i, tag, 0)
            else
              && r.value < i && log[r.value].seqnum < s
              && (!Conflicts(log, i, r.value) ==> NoneFrom(log, i, tag, log[r.value].seqnum))
  {
    ReadPrevIs(log, tag, s - 1);
  }
}
