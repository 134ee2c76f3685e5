/**
 Whole transactions of the state store.

 A transaction reads a snapshot, keeps its writes to itself and ends with a commit
 record.  Between any two of its calls other processes may append what they like.
 */
module TxnEnvs {
  import opened Options
  import opened SharedLogs
  import opened Transactions
  import opened Objects
  import opened StateStore
  import opened ObjectRefs

  // ------------------------------------------------------------------------
  // On values

  // A read and the log as it was then.
  datatype ReadAt<V> = ReadAt(log: Log, name: string, value: V)

  // Reads between the beginning and the end of a transaction, as Get answers them.
  ghost predicate SnapshotReads<V(!new)>(sem: Semantics<V>, hash: string -> nat, txn: nat, begin: Log,
                                         rs: seq<ReadAt<V>>, end: Log)
  {
    && ValidLog(hash, end) && begin <= end && Reached(begin, txn)
    && forall k :: 0 <= k < |rs| ==> ReadOk(sem, txn, begin, rs[k], end)
  }

  ghost predicate ReadOk<V>(sem: Semantics<V>, txn: nat, begin: Log, r: ReadAt<V>, end: Log) {
    begin <= r.log <= end && r.value == Replay(sem, r.log, r.name, Below(r.log, txn))
  }

  lemma {:induction false} OrderedPrefix(log: Log, log': Log)
    requires log <= log' && Ordered(log')
    ensures Ordered(log)
  {
    assert forall i :: 0 <= i < |log| ==> log[i] == log'[i];
  }

  /** The snapshot in a longer log is the snapshot. */
  lemma {:induction false} SameSnapshot<V>(sem: Semantics<V>, txn: nat, log: Log, log': Log, name: string)
    requires Ordered(log') && log <= log' && Reached(log, txn)
    ensures Below(log', txn) == Below(log, txn)
    ensures Replay(sem, log', name, Below(log', txn)) == Replay(sem, log, name, Below(log, txn))
  {
    SnapshotStays(log, log', txn);
    ReplayLater(sem, log, log', name, Below(log, txn));
  }

  /** All reads of a transaction, whatever others append between them, see one state: the one at its
      beginning.  In particular two reads of one object return the same. */
  lemma {:induction false} OneSnapshot<V(!new)>(sem: Semantics<V>, hash: string -> nat, txn: nat, begin: Log,
                                                rs: seq<ReadAt<V>>, end: Log, k: nat)
    requires SnapshotReads(sem, hash, txn, begin, rs, end) && k < |rs|
    ensures Below(end, txn) == Below(begin, txn)
    ensures rs[k].value == Replay(sem, begin, rs[k].name, Below(begin, txn))
                           == Replay(sem, end, rs[k].name, Below(end, txn))
  {
    var r := rs[k];
    assert ReadOk(sem, txn, begin, r, end);
    OrderedPrefix(r.log, end);
    SameSnapshot(sem, txn, begin, r.log, r.name);
    SameSnapshot(sem, txn, begin, end, r.name);
  }

  lemma {:induction false} CommitApplies<V>(sem: Semantics<V>, hash: string -> nat, end: Log, ops: seq<Op>, txn: nat,
                                            later: Log, name: string)
    requires ValidLog(hash, end) && end <= later && end != [] && end[|end| - 1].body == TxnCommit(ops, txn)
    requires Effective(end, |end| - 1) && name in WriteSet(TxnCommit(ops, txn))
    ensures var before := Replay(sem, end, name, Below(end, txn));
            && Replay(sem, later, name, |end| - 1) == before
            && Replay(sem, later, name, |end|) == ApplyOps(sem, before, ops, name)
  {
    CommittedReadsCurrent(sem, hash, end, |end| - 1, name);
    ReplayOne(sem, end, |end| - 1, name);
    ReplayLater(sem, end, later, name, |end| - 1);
    ReplayLater(sem, end, later, name, |end|);
  }

  lemma {:induction false} ReplayOne<V>(sem: Semantics<V>, log: Log, i: nat, name: string)
    requires i < |log| && Writes(log, i, name)
    ensures Replay(sem, log, name, i + 1) == ApplyOps(sem, Replay(sem, log, name, i), log[i].body.ops, name)
  {
  }

  lemma {:induction false} ReplayLater<V>(sem: Semantics<V>, log: Log, later: Log, name: string, n: nat)
    requires log <= later && n <= |log|
    ensures Replay(sem, later, name, n) == Replay(sem, log, name, n)
  {
    assert later == log + later[|log|..];
    ReplayStays(sem, log, later[|log|..], name, n);
  }

  /** A committed transaction is atomic for what it writes: an object it read and writes had the value
      read right up to the commit record, which applies the transaction's operations to that value;
      and this is so in every later log. */
  lemma {:induction false} CommitAtomic<V(!new)>(sem: Semantics<V>, hash: string -> nat, txn: nat, begin: Log,
                                                 rs: seq<ReadAt<V>>, end: Log, ops: seq<Op>, later: Log, k: nat)
    requires SnapshotReads(sem, hash, txn, begin, rs, end) && k < |rs| && end <= later
    requires end != [] && end[|end| - 1].body == TxnCommit(ops, txn) && Effective(end, |end| - 1)
    requires rs[k].name in WriteSet(TxnCommit(ops, txn))
    ensures Replay(sem, later, rs[k].name, |end| - 1) == rs[k].value
    ensures Replay(sem, later, rs[k].name, |end|) == ApplyOps(sem, rs[k].value, ops, rs[k].name)
  {
    OneSnapshot(sem, hash, txn, begin, rs, end, k);
    CommitApplies(sem, hash, end, ops, txn, later, rs[k].name);
  }

  /** A read-only transaction sees the whole log at its beginning, and nothing that comes later. */
  lemma {:induction false} ReadOnlySeesAll<V(!new)>(sem: Semantics<V>, hash: string -> nat, begin: Log,
                                                    rs: seq<ReadAt<V>>, end: Log, k: nat)
    requires SnapshotReads(sem, hash, NextSeqnum(begin), begin, rs, end) && k < |rs|
    ensures rs[k].value == Replay(sem, begin, rs[k].name, |begin|)
  {
    OneSnapshot(sem, hash, NextSeqnum(begin), begin, rs, end, k);
    WholeLog(begin);
  }

  lemma {:induction false} WholeLog(log: Log)
    ensures Below(log, NextSeqnum(log)) == |log| && Reached(log, NextSeqnum(log))
  {
  }

  /** The nil dereference of a read-only transaction: syncing a new object to the snapshot leaves no
      view exactly on the empty log. */
  lemma {:induction false} ReadOnlyNilIff<V>(sem: Semantics<V>, log: Log, name: string)
    ensures Synced(sem, log, name, None, NextSeqnum(log)) == None <==> log == []
  {
  }

  /** The nil dereference of a write: the first record of a log, here numbered 0, is written through a
      new object. */
  lemma {:induction false} FirstWriteNil<V>(sem: Semantics<V>, hash: string -> nat, op: Op)
    ensures var log := [Record(0, {ObjectTag(hash, op.objName)}, NormalOp([op]))];
            ValidLog(hash, log) && Synced(sem, log, op.objName, None, log[0].seqnum) == None
  {
    var log := [Record(0, {ObjectTag(hash, op.objName)}, NormalOp([op]))];
    assert WellFormed(hash, log[0]);
  }

  // ------------------------------------------------------------------------
  // The library's environments

  // What has been read is as of a snapshot.
  ghost predicate AsOf<V(!new)>(sem: Semantics<V>, log: Log, txn: nat, seen: seq<(string, V)>) {
    forall k :: 0 <= k < |seen| ==> seen[k].1 == Replay(sem, log, seen[k].0, Below(log, txn))
  }

  lemma {:induction false} AsOfStays<V(!new)>(sem: Semantics<V>, log: Log, log': Log, txn: nat, seen: seq<(string, V)>)
    requires Ordered(log') && log <= log' && Reached(log, txn) && AsOf(sem, log, txn, seen)
    ensures AsOf(sem, log', txn, seen)
  {
    forall k | 0 <= k < |seen|
      ensures seen[k].1 == Replay(sem, log', seen[k].0, Below(log', txn))
    {
      SameSnapshot(sem, txn, log, log', seen[k].0);
    }
  }

  // What has been read of the objects written is their state right before the last record, which
  // applies the operations to it.
  ghost predicate CurrentAtCommit<V(!new)>(sem: Semantics<V>, log: Log, ops: seq<Op>, seen: seq<(string, V)>) {
    && log != []
    && forall k :: 0 <= k < |seen| && seen[k].0 in (set op | op in ops :: op.objName) ==>
         && Replay(sem, log, seen[k].0, |log| - 1) == seen[k].1
         && Replay(sem, log, seen[k].0, |log|) == ApplyOps(sem, seen[k].1, ops, seen[k].0)
  }

  lemma {:induction false} AtCommit<V(!new)>(sem: Semantics<V>, hash: string -> nat, log: Log, txn: nat, ops: seq<Op>,
                                             seen: seq<(string, V)>)
    requires ValidLog(hash, log) && log != [] && log[|log| - 1].body == TxnCommit(ops, txn) && Effective(log, |log| - 1)
    requires AsOf(sem, log, txn, seen)
    ensures CurrentAtCommit(sem, log, ops, seen)
  {
    forall k | 0 <= k < |seen| && seen[k].0 in (set op | op in ops :: op.objName)
      ensures Replay(sem, log, seen[k].0, |log| - 1) == seen[k].1
      ensures Replay(sem, log, seen[k].0, |log|) == ApplyOps(sem, seen[k].1, ops, seen[k].0)
    {
      CommittedReadsCurrent(sem, hash, log, |log| - 1, seen[k].0);
    }
  }

  class TxnEnv<V(==,!new)> {
    const env: Env<V>
    var ctx: TxnContext?
    var objs: map<string, ObjectRef<V>>
    ghost var seen: seq<(string, V)>

    ghost predicate ObjOk(name: string, o: ObjectRef<V>)
      reads o, env`log
    {
      o.env == env && o.name == name && o.ViewOk()
    }

    // A transaction that has begun: its snapshot is in the log, and everything read so far is as of it.
    ghost predicate InTxn(c: TxnContext)
      reads c, env`log
    {
      && c.active && Reached(env.log, c.id)
      && (!c.readonly ==> Begun(env.log, c.id, |env.log|))
    }

    ghost predicate Valid()
      reads this, env, ctx, objs.Values
    {
      && env.Valid()
      && (forall name :: name in objs ==> ObjOk(name, objs[name]))
      && (ctx != null ==>
            && InTxn(ctx) && AsOf(env.sem, env.log, ctx.id, seen)
            && forall name :: name in objs ==> objs[name].ctx == ctx)
    }

    // The transactions that objects were made in.
    ghost function Contexts(): set<TxnContext>
      reads this`objs
    {
      set name | name in objs && objs[name].ctx != null :: objs[name].ctx
    }

    // CreateEnv
    constructor (env: Env<V>)
      requires env.Valid()
      ensures Valid() && this.env == env && ctx == null && objs == map[] && seen == []
    {
      this.env, ctx, objs, seen := env, null, map[], [];
    }

    /** CreateTxnEnv: a transaction is named by the sequence number of its begin record. */
    constructor Txn(env: Env<V>)
      requires env.Valid() && Room(env.log)
      modifies env`log
      ensures Valid() && this.env == env && objs == map[] && seen == []
      ensures Appended(old(env.log), env.log, {TXN_META_TAG}, TxnBegin)
      ensures ctx != null && fresh(ctx) && !ctx.readonly && ctx.ops == []
      ensures ctx.id == env.log[|env.log| - 1].seqnum && Below(env.log, ctx.id) == |env.log| - 1
    {
      this.env, ctx, objs, seen := env, null, map[], [];
      new;
      var i := env.Append({TXN_META_TAG}, TxnBegin);
      BelowAt(env.log, i);
      ctx := new TxnContext(env.log[i].seqnum, false);
    }

    /** CreateReadOnlyTxnEnv: the snapshot is everything in the log. */
    constructor ReadOnly(env: Env<V>)
      requires env.Valid()
      ensures Valid() && this.env == env && objs == map[] && seen == []
      ensures ctx != null && fresh(ctx) && ctx.readonly && ctx.ops == []
      ensures ctx.id == NextSeqnum(env.log) && Below(env.log, ctx.id) == |env.log|
    {
      this.env, ctx, objs, seen := env, null, map[], [];
      new;
      var seqnum := 0;
      if env.log != [] {
        seqnum := env.log[|env.log| - 1].seqnum + 1;
      }
      WholeLog(env.log);
      ctx := new TxnContext(seqnum, true);
    }

    /** Other processes append; nothing this process holds or has read is affected. */
    method Others()
      requires Valid()
      modifies env`log
      ensures Valid() && old(env.log) <= env.log
    {
      env.Others();
      StaysValid(this);
    }

    // Object: one reference per name, with the environment's transaction.
    method Object(name: string) returns (o: ObjectRef<V>)
      requires Valid()
      modifies this`objs
      ensures Valid() && objs == old(objs)[name := o] && o.name == name && o.env == env
      ensures if name in old(objs) then o == old(objs)[name] else fresh(o) && o.view == None && o.ctx == ctx
    {
      if name in objs {
        o := objs[name];
        assert objs == objs[name := o];
      } else {
        o := new ObjectRef(env, name, ctx);
        objs := objs[name := o];
      }
    }

    /** Reading an object.  In a transaction every read returns the object as of the snapshot, so a
        repeated read returns the same; None is the nil dereference, exactly at snapshot position 0.
        Outside, the object as of the last sync, and a first read is one of the whole log; an object of
        a transaction that has ended panics. */
    method Get(name: string) returns (r: Option<V>)
      requires Valid()
      modifies this`objs, this`seen, env`aux, objs.Values`view
      ensures Valid() && old(objs).Keys <= objs.Keys
      ensures name in objs && ReadsOutside(objs[name], old(ViewOf(name)), r)
      ensures ctx != null ==> (r.None? <==> ctx.id == 0)
      ensures ctx != null && r.Some? ==> r.value == Replay(env.sem, env.log, name, Below(env.log, ctx.id))
      ensures ctx != null && r.Some? ==> forall k :: 0 <= k < |old(seen)| && old(seen)[k].0 == name ==> old(seen)[k].1 == r.value
      ensures seen == old(seen) + if r.Some? then [(name, r.value)] else []
    {
      var o := Object(name);
      r := Fetch(name, o);
    }

    // The view of an object, if there is one.
    ghost function ViewOf(name: string): Option<View<V>>
      reads this`objs, objs.Values
    {
      if name in objs then objs[name].view else None
    }

    // What a read through an object returns, given its view before.
    ghost predicate ReadsOutside(o: ObjectRef<V>, view: Option<View<V>>, r: Option<V>)
      reads o, o.ctx, env`log
    {
      && (r.None? <==> o.ctx != null && (!o.ctx.active || o.ctx.id == 0))
      && (o.ctx == null ==>
            && r.Some? && o.view.Some? && r.value == o.view.value.contents
            && if view.Some? then o.view == view else r.value == Replay(env.sem, env.log, o.name, |env.log|))
    }

    method Fetch(name: string, o: ObjectRef<V>) returns (r: Option<V>)
      requires Valid() && name in objs && objs[name] == o
      modifies this`seen, env`aux, o`view
      ensures Valid() && ReadsOutside(o, old(o.view), r)
      ensures ctx != null ==> (r.None? <==> ctx.id == 0)
      ensures ctx != null && r.Some? ==> r.value == Replay(env.sem, env.log, name, Below(env.log, ctx.id))
      ensures ctx != null && r.Some? ==> forall k :: 0 <= k < |old(seen)| && old(seen)[k].0 == name ==> old(seen)[k].1 == r.value
      ensures seen == old(seen) + if r.Some? then [(name, r.value)] else []
    {
      r := o.Get();
      if r.Some? {
        seen := seen + [(name, r.value)];
      }
    }

    /** Writing an object.  In a transaction the log stays as it is and the operation waits for the
        commit record; in a read-only one the call panics.  Outside, the write takes effect at its
        record, with the result of that point. */
    method Write(op: Op) returns (panicked: bool, result: Option<string>)
      requires Valid() && Room(env.log)
      modifies this`objs, env`log, env`aux, objs.Values`view, ctx, Contexts()
      ensures Valid() && old(env.log) <= env.log && old(objs).Keys <= objs.Keys
      ensures ctx != null ==>
                && env.log == old(env.log) && (panicked <==> ctx.readonly)
                && ctx.ops == old(ctx.ops) + if panicked then [] else [op]
      ensures op.objName in objs
      ensures objs[op.objName].ctx == null ==>
                && Appended(old(env.log), env.log, {ObjectTag(env.hash, op.objName)}, NormalOp([op]))
                && WritesOutside(objs[op.objName], old(ViewOf(op.objName)), op, panicked, result)
    {
      var o := Object(op.objName);
      panicked, result := WriteTo(o, op);
    }

    // What a write through an object at the last record does, given its view before.
    ghost predicate WritesOutside(o: ObjectRef<V>, view: Option<View<V>>, op: Op, panicked: bool, result: Option<string>)
      reads o, env`log
    {
      && env.log != []
      && (panicked <==> view.None? && env.log[|env.log| - 1].seqnum == 0)
      && (!panicked ==>
            result.Some? && Written(env.sem, env.log, o.name, |env.log| - 1, [op], o.view, [result.value]))
    }

    method WriteTo(o: ObjectRef<V>, op: Op) returns (panicked: bool, result: Option<string>)
      requires Valid() && Room(env.log) && op.objName in objs && objs[op.objName] == o
      modifies env`log, env`aux, o`view, o.ctx
      ensures Valid() && old(env.log) <= env.log
      ensures ctx != null ==>
                && env.log == old(env.log) && (panicked <==> ctx.readonly)
                && ctx.ops == old(ctx.ops) + if panicked then [] else [op]
      ensures o.ctx == null ==>
                && Appended(old(env.log), env.log, {ObjectTag(env.hash, op.objName)}, NormalOp([op]))
                && WritesOutside(o, old(o.view), op, panicked, result)
    {
      panicked, result := o.DoWriteOp(op);
      forall name | name in objs && objs[name] != o
        ensures ObjOk(name, objs[name])
      {
        assert old(ObjOk(name, objs[name]));
        StaysOk(objs[name]);
      }
    }

    /** The end of a transaction.  Its operations go into one commit record, which decides: it has
        committed exactly when the record takes effect.  Everything the transaction has read is as of
        its snapshot; and if it has committed, the objects it read and writes had the values read right
        up to the commit record, which applied the operations to them.  None is the panic outside a
        transaction or in a read-only one. */
    method TxnCommit() returns (committed: Option<bool>)
      requires Valid() && Room(env.log)
      modifies this`ctx, ctx, env`log, env`aux
      ensures Valid() && (committed.None? <==> old(ctx) == null || old(ctx).readonly)
      ensures committed.None? ==> ctx == old(ctx) && env.log == old(env.log)
      ensures committed.Some? ==>
                && ctx == null && !old(ctx).active && old(env.log) < env.log
                && env.log[|env.log| - 1].body == Body.TxnCommit(old(ctx.ops), old(ctx).id)
                && (committed.value <==> Effective(env.log, |env.log| - 1))
                && AsOf(env.sem, env.log, old(ctx).id, seen)
      ensures committed == Some(true) ==> CurrentAtCommit(env.sem, env.log, old(ctx.ops), seen)
    {
      if ctx == null || ctx.readonly {
        return None;
      }
      var c := ctx;
      ctx := null;
      c.active := false;
      var tags := CommitTags(c);
      var i := AppendEnd(tags, Body.TxnCommit(c.ops, c.id), c.id);
      var result := Decide(i, c.ops, c.id);
      committed := Some(result);
    }

    // Whether the transaction that ends at a record has committed.
    method Decide(i: nat, ghost ops: seq<Op>, ghost txn: nat) returns (committed: bool)
      requires Valid() && ctx == null && i + 1 == |env.log| && env.log[i].body == Body.TxnCommit(ops, txn)
      requires AsOf(env.sem, env.log, txn, seen)
      modifies env`aux
      ensures Valid() && (committed <==> Effective(env.log, i))
      ensures committed ==> CurrentAtCommit(env.sem, env.log, ops, seen)
    {
      var result, _ := env.CheckTxnCommitResult(i, None);
      committed := result;
      if committed {
        AtCommit(env.sem, env.hash, env.log, txn, ops, seen);
      }
    }

    method CommitTags(c: TxnContext) returns (tags: set<nat>)
      ensures WellFormed(env.hash, Record(0, tags, Body.TxnCommit(c.ops, c.id)))
    {
      tags := {TXN_META_TAG, HistoryTag(c.id)};
      for k := 0 to |c.ops|
        invariant tags == {TXN_META_TAG, HistoryTag(c.id)} + (set op | op in c.ops[..k] :: ObjectTag(env.hash, op.objName))
      {
        assert c.ops[..k + 1] == c.ops[..k] + [c.ops[k]];
        tags := tags + {ObjectTag(env.hash, c.ops[k].objName)};
      }
      assert c.ops[..|c.ops|] == c.ops;
    }

    // true is the panic outside a transaction or in a read-only one.
    method TxnAbort() returns (panicked: bool)
      requires Valid() && Room(env.log)
      modifies this`ctx, ctx, env`log
      ensures Valid() && (panicked <==> old(ctx) == null || old(ctx).readonly)
      ensures panicked ==> ctx == old(ctx) && env.log == old(env.log)
      ensures !panicked ==>
                && ctx == null && !old(ctx).active
                && Appended(old(env.log), env.log, {TXN_META_TAG, HistoryTag(old(ctx).id)}, Body.TxnAbort(old(ctx).id))
    {
      if ctx == null || ctx.readonly {
        return true;
      }
      var c := ctx;
      ctx := null;
      c.active := false;
      var _ := AppendEnd({TXN_META_TAG, HistoryTag(c.id)}, Body.TxnAbort(c.id), c.id);
      panicked := false;
    }

    // The record that ends a transaction.
    method AppendEnd(tags: set<nat>, body: Body, ghost txn: nat) returns (i: nat)
      requires Valid() && ctx == null && Room(env.log) && WellFormed(env.hash, Record(0, tags, body))
      requires body.TxnCommit? ==> Begun(env.log, body.txn, |env.log|)
      requires Reached(env.log, txn) && AsOf(env.sem, env.log, txn, seen)
      modifies env`log
      ensures Valid() && Appended(old(env.log), env.log, tags, body) && i == |env.log| - 1
      ensures AsOf(env.sem, env.log, txn, seen)
    {
      i := env.Append(tags, body);
      StaysValid(this);
      AsOfStays(env.sem, old(env.log), env.log, txn, seen);
    }
  }

  twostate lemma {:induction false} StaysValid<V(!new)>(t: TxnEnv<V>)
    requires old(t.Valid()) && t.env.Valid() && old(t.env.log) <= t.env.log
    requires unchanged(t) && unchanged(t.objs.Values) && (t.ctx != null ==> unchanged(t.ctx))
    ensures t.Valid()
  {
    forall name | name in t.objs
      ensures t.ObjOk(name, t.objs[name])
    {
      assert t.objs[name] in t.objs.Values;
      assert old(t.ObjOk(name, t.objs[name]));
      StaysOk(t.objs[name]);
    }
    if t.ctx != null {
      AsOfStays(t.env.sem, old(t.env.log), t.env.log, t.ctx.id, t.seen);
      SnapshotStays(old(t.env.log), t.env.log, t.ctx.id);
      if !t.ctx.readonly {
        BegunLonger(old(t.env.log), t.env.log, t.ctx.id);
      }
    }
  }

  lemma {:induction false} BegunLonger(log: Log, log': Log, txn: nat)
    requires log <= log' && Begun(log, txn, |log|)
    ensures Begun(log', txn, |log'|)
  {
    var b :| 0 <= b < |log| && log[b].seqnum == txn && log[b].body.TxnBegin?;
    assert log'[b] == log[b];
  }
}
