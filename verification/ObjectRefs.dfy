/** Objects of the state store: bringing a view up to date, reading and writing, in and outside transactions. */
module ObjectRefs {
  import opened Options
  import opened SharedLogs
  import opened Transactions
  import opened Objects
  import opened StateStore

  // An object as of all records below `next`, where `next` lies right after the last record that writes it.
  datatype View<V> = View(next: nat, contents: V)

  // The view at sequence number s.
  ghost function ViewAt<V>(sem: Semantics<V>, log: Log, name: string, s: nat): View<V> {
    View(NextAfter(log, Writers(log, name), Below(log, s)), Replay(sem, log, name, Below(log, s)))
  }

  ghost predicate ViewRight<V>(sem: Semantics<V>, log: Log, name: string, v: View<V>) {
    var n := Below(log, v.next);
    && v == ViewAt(sem, log, name, v.next)
    && (v.next == 0 || (n > 0 && v.next == log[n - 1].seqnum + 1))
  }

  ghost predicate UpTo<V>(sem: Semantics<V>, log: Log, name: string, v: View<V>, s: nat) {
    v == ViewAt(sem, log, name, s)
  }

  /** What syncing leaves: the view at the tail, whatever the view was; but no view stays no view when
      the tail is 0. */
  ghost function Synced<V>(sem: Semantics<V>, log: Log, name: string, view: Option<View<V>>, tail: nat): Option<View<V>> {
    if view.None? && tail == 0 then None else Some(ViewAt(sem, log, name, tail))
  }

  // Only records with the object's tag write it.
  lemma {:induction false} WritersTagged(hash: string -> nat, log: Log, name: string)
    requires ValidLog(hash, log)
    ensures Tagged(log, Writers(log, name), ObjectTag(hash, name))
  {
    forall i | i in Writers(log, name)
      ensures ObjectTag(hash, name) in log[i].tags
    {
      assert WellFormed(hash, log[i]);
      var op :| op in log[i].body.ops && op.objName == name;
    }
  }

  // The view right after a record that writes the object.
  lemma {:induction false} ViewAfter<V>(sem: Semantics<V>, log: Log, name: string, j: nat)
    requires Ordered(log) && j < |log| && Writes(log, j, name)
    ensures var v := View(log[j].seqnum + 1, Replay(sem, log, name, j + 1));
            ViewRight(sem, log, name, v) && UpTo(sem, log, name, v, log[j].seqnum + 1)
  {
    BelowAt(log, j);
    assert j in Writers(log, name);
  }

  // Auxiliary data loaded with records.
  ghost predicate AuxOk<V>(sem: Semantics<V>, log: Log, j: nat, a: Option<Aux<V>>) {
    a.Some? ==> ValidAux(sem, log, j, a.value)
  }

  ghost predicate Loaded<V>(sem: Semantics<V>, log: Log, aux: seq<Option<Aux<V>>>, ps: seq<nat>) {
    |aux| == |ps| && forall k :: 0 <= k < |ps| ==> AuxOk(sem, log, ps[k], aux[k])
  }

  lemma {:induction false} LoadedMore<V>(sem: Semantics<V>, log: Log, aux: seq<Option<Aux<V>>>, ps: seq<nat>,
                                         a: Option<Aux<V>>, j: nat)
    requires Loaded(sem, log, aux, ps) && AuxOk(sem, log, j, a)
    ensures Loaded(sem, log, aux + [a], ps + [j])
  {
  }

  // hasCachedObjectView
  predicate HasCached<V>(body: Body, a: Option<Aux<V>>, name: string) {
    a.Some? && (body.NormalOp? || (body.TxnCommit? && a.value.CommitAux? && name in a.value.views))
  }

  class ObjectRef<V(==)> {
    const env: Env<V>
    const name: string
    const ctx: TxnContext?
    var view: Option<View<V>>

    ghost predicate Sound()
      reads this, env
    {
      env.Valid() && (view.Some? ==> ViewRight(env.sem, env.log, name, view.value))
    }

    // The view is right; in a transaction it is the object as of the snapshot.
    ghost predicate ViewOk()
      reads this, env`log
    {
      && (view.Some? ==> ViewRight(env.sem, env.log, name, view.value))
      && (ctx != null ==>
            && Reached(env.log, ctx.id)
            && (view.Some? ==> ctx.id > 0 && view.value == ViewAt(env.sem, env.log, name, ctx.id)))
    }

    ghost predicate Valid()
      reads this, env
    {
      env.Valid() && ViewOk()
    }

    constructor (env: Env<V>, name: string, ctx: TxnContext?)
      requires env.Valid() && (ctx != null ==> Reached(env.log, ctx.id))
      ensures Valid() && this.env == env && this.name == name && this.ctx == ctx && view == None
    {
      this.env, this.name, this.ctx, view := env, name, ctx, None;
    }

    // decodeLogEntry and the tests after it: the auxiliary data of a record that writes the object.
    method Decode(j: nat) returns (writes: bool, a: Option<Aux<V>>)
      requires env.Valid() && j < |env.log|
      modifies env`aux
      ensures env.Valid() && (writes <==> Writes(env.log, j, name))
      ensures AuxOk(env.sem, env.log, j, a)
    {
      a := env.Load(j);
      if name !in WriteSet(env.log[j].body) {
        return false, a;
      }
      if env.log[j].body.TxnCommit? {
        var committed, checked := env.CheckTxnCommitResult(j, a);
        return committed, Some(checked);
      }
      writes := true;
    }

    // loadCachedObjectView
    method LoadCached(j: nat, a: Option<Aux<V>>) returns (v: Option<View<V>>)
      requires env.Valid() && j < |env.log| && Writes(env.log, j, name)
      requires AuxOk(env.sem, env.log, j, a)
      ensures v.Some? <==> HasCached(env.log[j].body, a, name)
      ensures v.Some? ==> v.value.next == env.log[j].seqnum + 1 && ViewRight(env.sem, env.log, name, v.value)
    {
      ViewAfter(env.sem, env.log, name, j);
      if a.None? {
        return None;
      }
      match a.value
      case NormalAux(contents) => v := Some(View(env.log[j].seqnum + 1, contents));
      case CommitAux(_, views) => v := if name in views then Some(View(env.log[j].seqnum + 1, views[name])) else None;
    }

    // cacheObjectView
    method Cache(j: nat, a: Option<Aux<V>>, contents: V)
      requires env.Valid() && j < |env.log| && Writes(env.log, j, name)
      requires AuxOk(env.sem, env.log, j, a)
      requires contents == Replay(env.sem, env.log, name, j + 1)
      modifies env`aux
      ensures env.Valid() && env.aux == Cached(old(env.aux), env.useAux, env.log[j].body, name, j, a, contents)
      ensures env.useAux && !HasCached(env.log[j].body, a, name) ==>
                j in env.aux && HasCached(env.log[j].body, Some(env.aux[j]), name)
      ensures env.useAux && a.Some? && a.value.CommitAux? && name !in a.value.views ==>
                j in env.aux && env.aux[j] == CommitAux(a.value.result, a.value.views[name := contents])
    {
      if !env.useAux {
        return;
      }
      assert WellFormed(env.hash, env.log[j]);
      if env.log[j].body.NormalOp? {
        if a.None? {
          env.SetAux(j, NormalAux(contents));
        }
      } else {
        var own := if a.Some? then a.value else CommitAux(None, map[]);
        if name !in own.views {
          env.SetAux(j, own.(views := own.views[name := contents]));
        }
      }
    }

    // applyWriteOp for the operations of a record on this object
    method ApplyAll(v: V, ops: seq<Op>) returns (w: V)
      ensures w == ApplyOps(env.sem, v, ops, name)
    {
      w := v;
      for k := 0 to |ops|
        invariant w == ApplyOps(env.sem, v, ops[..k], name)
      {
        assert ops[..k + 1][..k] == ops[..k];
        if ops[k].objName == name {
          w := env.sem.apply(w, ops[k]);
        }
      }
      assert ops[..|ops|] == ops;
    }

    // One step back: `more` unless the search is over.
    method CollectOne(seqnum: nat, current: nat, ghost tail: nat, ps: seq<nat>, aux: seq<Option<Aux<V>>>)
        returns (more: bool, seqnum': nat, ps': seq<nat>, aux': seq<Option<Aux<V>>>, cached: Option<View<V>>)
      requires env.Valid() && Loaded(env.sem, env.log, aux, ps) && current < seqnum <= tail
      requires Todo(env.log, name, ps, seqnum, tail)
      modifies env`aux
      ensures env.Valid() && Loaded(env.sem, env.log, aux', ps')
      ensures current <= seqnum' <= seqnum && (more ==> cached.None? && seqnum' < seqnum)
      ensures cached.Some? ==> ViewRight(env.sem, env.log, name, cached.value) && current < cached.value.next <= tail
      ensures Todo(env.log, name, ps', NextOr(cached, if more then seqnum' else current), tail)
    {
      more, seqnum', ps', aux', cached := false, seqnum, ps, aux, None;
      var r := StepBack(seqnum, current, tail, ps);
      if r.None? {
        return;
      }
      var log, j := env.log, r.value;
      seqnum' := log[j].seqnum;
      var writes, a;
      writes, a, cached := Examine(j);
      if cached.Some? {
        return;
      }
      if writes {
        LoadedMore(env.sem, log, aux, ps, a, j);
        ps', aux' := ps + [j], aux + [a];
      }
      more := true;
    }

    // The record before a sequence number, unless nothing is left to collect.
    method StepBack(seqnum: nat, current: nat, ghost tail: nat, ghost ps: seq<nat>) returns (r: Option<nat>)
      requires env.Valid() && current < seqnum <= tail && Todo(env.log, name, ps, seqnum, tail)
      ensures match r
              case None => Todo(env.log, name, ps, current, tail)
              case Some(j) =>
                && j < |env.log| && current <= env.log[j].seqnum < seqnum
                && (j in Writers(env.log, name) ==> Todo(env.log, name, ps + [j], env.log[j].seqnum, tail))
                && (j !in Writers(env.log, name) ==> Todo(env.log, name, ps, env.log[j].seqnum, tail))
                && Todo(env.log, name, ps, env.log[j].seqnum + 1, tail)
    {
      var log, tag := env.log, ObjectTag(env.hash, name);
      var q := if seqnum != MAX_SEQNUM then seqnum - 1 else seqnum;
      r := ReadPrev(log, tag, q);
      WritersTagged(env.hash, log, name);
      CollectStep(log, Writers(log, name), tag, ps, seqnum, q, current, tail);
      if r.Some? && log[r.value].seqnum < current {
        r := None;
      }
    }

    // Whether a record writes the object, and the object after it if that is cached.
    method Examine(j: nat) returns (writes: bool, a: Option<Aux<V>>, cached: Option<View<V>>)
      requires env.Valid() && j < |env.log|
      modifies env`aux
      ensures env.Valid() && (writes <==> j in Writers(env.log, name))
      ensures AuxOk(env.sem, env.log, j, a)
      ensures cached.Some? ==> writes && cached.value.next == env.log[j].seqnum + 1
      ensures cached.Some? ==> ViewRight(env.sem, env.log, name, cached.value)
    {
      cached := None;
      writes, a := Decode(j);
      if writes {
        cached := LoadCached(j, a);
      }
    }

    /** The records to apply, newest first, and the view to apply them to: the newest cached one, or
        none if the current view is still the newest. */
    method Collect(tail: nat, current: nat) returns (ps: seq<nat>, aux: seq<Option<Aux<V>>>, cached: Option<View<V>>)
      requires env.Valid() && current < tail
      modifies env`aux
      ensures env.Valid() && Loaded(env.sem, env.log, aux, ps)
      ensures Todo(env.log, name, ps, NextOr(cached, current), tail)
      ensures cached.Some? ==> ViewRight(env.sem, env.log, name, cached.value) && current < cached.value.next <= tail
    {
      var seqnum: nat, more := tail, true;
      ps, aux, cached := [], [], None;
      while seqnum > current && more
        invariant env.Valid() && Loaded(env.sem, env.log, aux, ps) && current <= seqnum <= tail && (more ==> cached.None?)
        invariant cached.Some? ==> ViewRight(env.sem, env.log, name, cached.value) && current < cached.value.next <= tail
        invariant Todo(env.log, name, ps, NextOr(cached, if more then seqnum else current), tail)
        decreases seqnum, more
      {
        more, seqnum, ps, aux, cached := CollectOne(seqnum, current, tail, ps, aux);
      }
    }

    // Applies one collected record.
    method RedoOne(v: View<V>, ps: seq<nat>, i: nat, a: Option<Aux<V>>, ghost tail: nat) returns (v': View<V>)
      requires env.Valid() && ViewRight(env.sem, env.log, name, v)
      requires i < |ps| && Todo(env.log, name, ps[..i + 1], v.next, tail)
      requires AuxOk(env.sem, env.log, ps[i], a)
      modifies env`aux
      ensures env.Valid() && ViewRight(env.sem, env.log, name, v')
      ensures Todo(env.log, name, ps[..i], v'.next, tail)
      ensures ps[i] < |env.log| && v'.next == env.log[ps[i]].seqnum + 1
    {
      var log, j := env.log, ps[i];
      RedoStep(env.sem, log, name, ps, i, v, tail);
      var contents := RedoRecord(v.contents, j, a);
      v' := View(log[j].seqnum + 1, contents);
    }

    method RedoRecord(before: V, j: nat, a: Option<Aux<V>>) returns (contents: V)
      requires env.Valid() && j < |env.log| && Writes(env.log, j, name) && AuxOk(env.sem, env.log, j, a)
      requires ApplyOps(env.sem, before, env.log[j].body.ops, name) == Replay(env.sem, env.log, name, j + 1)
      modifies env`aux
      ensures env.Valid() && contents == Replay(env.sem, env.log, name, j + 1)
    {
      contents := ApplyAll(before, env.log[j].body.ops);
      Cache(j, a, contents);
    }

    // Applies the collected records, oldest first, caching the object after each.
    method Redo(base: View<V>, ps: seq<nat>, aux: seq<Option<Aux<V>>>, ghost tail: nat) returns (v: View<V>)
      requires env.Valid() && Loaded(env.sem, env.log, aux, ps) && ViewRight(env.sem, env.log, name, base)
      requires Todo(env.log, name, ps, base.next, tail)
      modifies env`aux
      ensures env.Valid() && ViewRight(env.sem, env.log, name, v)
      ensures v == ViewAt(env.sem, env.log, name, tail)
    {
      v := base;
      var i := |ps|;
      assert ps[..i] == ps;
      while i > 0
        invariant 0 <= i <= |ps| && env.Valid() && Loaded(env.sem, env.log, aux, ps) && ViewRight(env.sem, env.log, name, v)
        invariant Todo(env.log, name, ps[..i], v.next, tail)
      {
        i := i - 1;
        v := RedoOne(v, ps, i, aux[i], tail);
      }
      assert ps[..0] == [];
      NothingToRedo(env.sem, env.log, name, v, tail);
    }

    /** syncTo.  false is the abort on a tail before the current view.  Whatever is cached, the view
        becomes the one at the tail; but a missing view stays missing when the tail is 0. */
    method SyncToBackward(tail: nat) returns (ok: bool)
      requires Sound()
      modifies this`view, env`aux
      ensures Sound() && (ok <==> NextOr(old(view), 0) <= tail)
      ensures view == if ok then Synced(env.sem, env.log, name, old(view), tail) else old(view)
    {
      var current := NextOr(view, 0);
      if tail < current {
        return false;
      }
      if tail == current {
        return true;
      }
      var ps, aux, cached := Collect(tail, current);
      var base := if cached.Some? then cached.value else if view.Some? then view.value else View(0, env.sem.initial);
      ViewAtZero(env.sem, env.log, name);
      var v := Redo(base, ps, aux, tail);
      view := Some(v);
      ok := true;
    }

    /** The same by reading forwards; false also when there is no view to start from. */
    method SyncToForward(tail: nat) returns (ok: bool)
      requires Sound()
      modifies this`view, env`aux
      ensures Sound() && (ok <==> old(view).Some? && old(view).value.next <= tail)
      ensures view == if ok then Synced(env.sem, env.log, name, old(view), tail) else old(view)
    {
      if view.None? || tail < view.value.next {
        return false;
      }
      var seqnum, more := view.value.next, true;
      while seqnum < tail && more
        invariant Sound() && view.Some? && view.value.next <= seqnum <= tail
        invariant if more then UpTo(env.sem, env.log, name, view.value, seqnum) else UpTo(env.sem, env.log, name, view.value, tail)
        decreases tail - seqnum, more
      {
        var v;
        more, seqnum, v := ForwardOne(view.value, seqnum, tail);
        view := Some(v);
      }
      ok := true;
    }

    method ForwardOne(v: View<V>, seqnum: nat, tail: nat) returns (more: bool, seqnum': nat, v': View<V>)
      requires env.Valid() && ViewRight(env.sem, env.log, name, v) && v.next <= seqnum < tail
      requires UpTo(env.sem, env.log, name, v, seqnum)
      modifies env`aux
      ensures env.Valid() && ViewRight(env.sem, env.log, name, v') && v'.next <= seqnum' <= tail
      ensures seqnum <= seqnum' && (more ==> seqnum < seqnum')
      ensures if more then UpTo(env.sem, env.log, name, v', seqnum') else UpTo(env.sem, env.log, name, v', tail)
    {
      var r := NextRecord(v, seqnum, tail);
      if r.None? {
        return false, seqnum, v;
      }
      more := true;
      seqnum', v' := TakeRecord(v, r.value);
    }

    method TakeRecord(v: View<V>, j: nat) returns (seqnum: nat, v': View<V>)
      requires env.Valid() && ViewRight(env.sem, env.log, name, v)
      requires j < |env.log| && v.next <= env.log[j].seqnum && Forward(env.sem, env.log, name, v, j)
      modifies env`aux
      ensures env.Valid() && ViewRight(env.sem, env.log, name, v') && v'.next <= seqnum == env.log[j].seqnum + 1
      ensures UpTo(env.sem, env.log, name, v', seqnum)
    {
      seqnum := env.log[j].seqnum + 1;
      var writes, a := Decode(j);
      if writes {
        v' := ApplyForward(v.contents, j, a);
      } else {
        v' := v;
      }
    }

    // The next record with the object's tag below the tail.
    method NextRecord(ghost v: View<V>, seqnum: nat, tail: nat) returns (r: Option<nat>)
      requires env.Valid() && UpTo(env.sem, env.log, name, v, seqnum) && seqnum < tail
      ensures r.None? ==> UpTo(env.sem, env.log, name, v, tail)
      ensures r.Some? ==> r.value < |env.log| && seqnum <= env.log[r.value].seqnum < tail
      ensures r.Some? ==> Forward(env.sem, env.log, name, v, r.value)
    {
      r := ReadNext(env.log, ObjectTag(env.hash, name), seqnum);
      ForwardStep(env.sem, env.hash, env.log, name, v, seqnum, tail);
      if r.Some? && env.log[r.value].seqnum >= tail {
        r := None;
      }
    }

    method ApplyForward(before: V, j: nat, a: Option<Aux<V>>) returns (v: View<V>)
      requires env.Valid() && j < |env.log| && Writes(env.log, j, name)
      requires AuxOk(env.sem, env.log, j, a)
      requires ApplyOps(env.sem, before, env.log[j].body.ops, name) == Replay(env.sem, env.log, name, j + 1)
      modifies env`aux
      ensures env.Valid() && v.next == env.log[j].seqnum + 1
      ensures ViewRight(env.sem, env.log, name, v) && UpTo(env.sem, env.log, name, v, env.log[j].seqnum + 1)
    {
      var log := env.log;
      var contents := ApplyAll(before, log[j].body.ops);
      ViewAfter(env.sem, log, name, j);
      v := View(log[j].seqnum + 1, contents);
      if !HasCached(log[j].body, a, name) {
        Cache(j, a, contents);
      }
    }

    // applyWriteOp for each operation, with its result
    method Perform(v: V, ops: seq<Op>) returns (w: V, results: seq<string>)
      requires forall op :: op in ops ==> op.objName == name
      ensures w == ApplyOps(env.sem, v, ops, name) && results == Replies(env.sem, v, ops)
    {
      w, results := v, [];
      for k := 0 to |ops|
        invariant w == ApplyOps(env.sem, v, ops[..k], name) && results == Replies(env.sem, v, ops[..k])
      {
        assert ops[..k + 1][..k] == ops[..k] && ops[k] in ops;
        results := results + [env.sem.reply(w, ops[k])];
        w := env.sem.apply(w, ops[k]);
      }
      assert ops[..|ops|] == ops;
    }

    /** A write outside a transaction, of one operation or of several in MultiCommit, takes effect at
        its place in the log, and the results are those of the operations applied to the object as it
        is there.  A missing view is not made when the record gets sequence number 0: that is the nil
        dereference. */
    method Write(ops: seq<Op>) returns (panicked: bool, results: seq<string>)
      requires Valid() && ctx == null && Room(env.log) && ops != [] && forall op :: op in ops ==> op.objName == name
      modifies this`view, env`aux, env`log
      ensures Valid() && Appended(old(env.log), env.log, {ObjectTag(env.hash, name)}, NormalOp(ops))
      ensures panicked <==> old(view).None? && env.log[|env.log| - 1].seqnum == 0
      ensures !panicked ==> Written(env.sem, env.log, name, |env.log| - 1, ops, view, results)
    {
      var i := AppendWrite(ops);
      panicked, results := FinishWrite(i, ops);
    }

    // appendNormalOpLog
    method AppendWrite(ops: seq<Op>) returns (i: nat)
      requires Sound() && Room(env.log) && ops != [] && forall op :: op in ops ==> op.objName == name
      modifies env`log
      ensures Sound() && Appended(old(env.log), env.log, {ObjectTag(env.hash, name)}, NormalOp(ops))
      ensures i == |env.log| - 1 && NextOr(view, 0) <= env.log[i].seqnum
    {
      assert ops[0] in ops;
      i := env.Append({ObjectTag(env.hash, name)}, NormalOp(ops));
      if view.Some? {
        ViewStays(env.sem, env.hash, old(env.log), env.log, name, view.value);
        ViewBelowRecord(env.sem, old(env.log), env.log, name, view.value);
      }
    }

    method FinishWrite(i: nat, ops: seq<Op>) returns (panicked: bool, results: seq<string>)
      requires Sound() && i < |env.log| && env.log[i].body == NormalOp(ops) && NextOr(view, 0) <= env.log[i].seqnum
      requires ops != [] && forall op :: op in ops ==> op.objName == name
      modifies this`view, env`aux
      ensures Sound() && (panicked <==> old(view).None? && env.log[i].seqnum == 0)
      ensures !panicked ==> Written(env.sem, env.log, name, i, ops, view, results)
    {
      results := [];
      var ok := SyncToBackward(env.log[i].seqnum);
      if view.None? {
        return true, results;
      }
      BelowAt(env.log, i);
      results := PerformAt(i, ops);
      panicked := false;
    }

    method PerformAt(i: nat, ops: seq<Op>) returns (results: seq<string>)
      requires Sound() && i < |env.log| && env.log[i].body == NormalOp(ops)
      requires view.Some? && view.value.contents == Replay(env.sem, env.log, name, i)
      requires ops != [] && forall op :: op in ops ==> op.objName == name
      modifies this`view
      ensures Sound() && Written(env.sem, env.log, name, i, ops, view, results)
    {
      assert ops[0] in ops;
      WritesItself(env.sem, env.log, i, name, ops);
      var v: V;
      v, results := Perform(view.value.contents, ops);
      view := Some(View(env.log[i].seqnum + 1, v));
    }

    /** doWriteOp.  In a transaction the operation is only kept for the commit record, and neither the
        log nor the view changes; a read-only or ended transaction is the other panic. */
    method DoWriteOp(op: Op) returns (panicked: bool, result: Option<string>)
      requires Valid() && Room(env.log) && op.objName == name
      modifies this`view, env`aux, env`log, ctx
      ensures Valid()
      ensures ctx != null ==> unchanged(this) && unchanged(env) && result == None && ctx.active == old(ctx.active)
      ensures ctx != null ==> (panicked <==> !ctx.active || ctx.readonly)
      ensures ctx != null ==> ctx.ops == old(ctx.ops) + if panicked then [] else [op]
      ensures ctx == null ==>
                && Appended(old(env.log), env.log, {ObjectTag(env.hash, name)}, NormalOp([op]))
                && (panicked <==> old(view).None? && env.log[|env.log| - 1].seqnum == 0)
                && (!panicked ==> result.Some? && Written(env.sem, env.log, name, |env.log| - 1, [op], view, [result.value]))
    {
      if ctx != null {
        if !ctx.active || ctx.readonly {
          return true, None;
        }
        ctx.ops := ctx.ops + [op];
        return false, None;
      }
      var results;
      panicked, results := Write([op]);
      if panicked {
        return true, None;
      }
      RepliesAre(env.sem, Replay(env.sem, env.log, name, |env.log| - 1), [op]);
      ApplyOpsOne(env.sem, Replay(env.sem, env.log, name, |env.log| - 1), op, name);
      result := Some(results[0]);
    }

    // true is the panic in a transaction.
    method Sync() returns (panicked: bool)
      requires Valid()
      modifies this`view, env`aux
      ensures Valid() && (panicked <==> ctx != null)
      ensures view == if panicked then old(view) else Some(ViewAt(env.sem, env.log, name, MAX_SEQNUM))
      ensures !panicked ==> view.value.contents == Replay(env.sem, env.log, name, |env.log|)
    {
      if ctx != null {
        return true;
      }
      AllBelowMax(env.log);
      if view.Some? {
        ViewReached(env.sem, env.log, name, view.value);
      }
      var _ := SyncToBackward(MAX_SEQNUM);
      panicked := false;
    }

    /** Get.  In a transaction every read returns the object as of the snapshot, whatever others have
        appended since; outside, the object as of the last sync, and a first read is one of the whole
        log.  None is a panic: an ended transaction, or the nil dereference at snapshot position 0. */
    method Get() returns (r: Option<V>)
      requires Valid()
      modifies this`view, env`aux
      ensures Valid() && (r.None? <==> ctx != null && (!ctx.active || ctx.id == 0))
      ensures r.Some? ==> view.Some? && r == Some(view.value.contents)
      ensures r.Some? && ctx != null ==> r.value == Replay(env.sem, env.log, name, Below(env.log, ctx.id))
      ensures ctx == null ==> view == if old(view).Some? then old(view) else Some(ViewAt(env.sem, env.log, name, MAX_SEQNUM))
      ensures ctx == null && old(view).None? ==> r.value == Replay(env.sem, env.log, name, |env.log|)
    {
      if ctx != null && !ctx.active {
        return None;
      }
      if view.None? {
        var tail := if ctx != null then ctx.id else MAX_SEQNUM;
        AllBelowMax(env.log);
        var _ := SyncToBackward(tail);
      }
      r := if view.Some? then Some(view.value.contents) else None;
    }
  }

  /** Other processes' records leave an object as it was: its view stays right, and in a transaction it
      stays the object as of the snapshot. */
  twostate lemma {:induction false} StaysOk<V>(o: ObjectRef<V>)
    requires old(o.Valid()) && o.view == old(o.view) && o.env.Valid() && old(o.env.log) <= o.env.log
    ensures o.Valid()
  {
    var sem, hash, log, log' := o.env.sem, o.env.hash, old(o.env.log), o.env.log;
    if o.view.Some? {
      ViewStays(sem, hash, log, log', o.name, o.view.value);
    }
    if o.ctx != null {
      SnapshotStays(log, log', o.ctx.id);
      ViewAtStays(sem, hash, log, log', o.name, o.ctx.id);
    }
  }

  function NextOr<V>(v: Option<View<V>>, s: nat): nat {
    if v.Some? then v.value.next else s
  }

  /** A write has been done at record i: the view is the object right after it, and the results are those
      of the operations on the object right before it. */
  ghost predicate Written<V>(sem: Semantics<V>, log: Log, name: string, i: nat, ops: seq<Op>, view: Option<View<V>>,
                             results: seq<string>)
    requires i < |log|
  {
    && view == Some(ViewAt(sem, log, name, log[i].seqnum + 1))
    && view.value.contents == Replay(sem, log, name, i + 1)
    && results == Replies(sem, Replay(sem, log, name, i), ops)
  }

  // What cacheObjectView leaves in the cache.
  function Cached<V>(aux: map<nat, Aux<V>>, useAux: bool, body: Body, name: string, j: nat, a: Option<Aux<V>>,
                     contents: V): map<nat, Aux<V>>
  {
    if !useAux then aux
    else if body.NormalOp? then if a.None? then aux[j := NormalAux(contents)] else aux
    else if a.None? then aux[j := CommitAux(None, map[name := contents])]
    else if a.value.CommitAux? && name !in a.value.views then
      aux[j := a.value.(views := a.value.views[name := contents])]
    else aux
  }

  // The records still to apply, newest first, to get from sequence number s to the tail.
  ghost predicate Todo(log: Log, name: string, ps: seq<nat>, s: nat, tail: nat) {
    TrailFrom(log, Writers(log, name), ps, s, tail)
  }

  lemma {:induction false} NothingToRedo<V>(sem: Semantics<V>, log: Log, name: string, v: View<V>, tail: nat)
    requires ViewRight(sem, log, name, v) && Todo(log, name, [], v.next, tail)
    ensures v == ViewAt(sem, log, name, tail)
  {
    TrailEmpty(Writers(log, name), Below(log, v.next), Below(log, tail));
    ViewSkips(sem, log, name, v.next, tail);
  }

  lemma {:induction false} ViewSkips<V>(sem: Semantics<V>, log: Log, name: string, s: nat, t: nat)
    requires Below(log, s) <= Below(log, t) && NoneIn(Writers(log, name), Below(log, s), Below(log, t))
    ensures ViewAt(sem, log, name, t) == ViewAt(sem, log, name, s)
  {
    ReplaySkips(sem, log, name, Below(log, s), Below(log, t));
    NextAfterSkips(log, Writers(log, name), Below(log, s), Below(log, t));
  }

  lemma {:induction false} ViewAtZero<V>(sem: Semantics<V>, log: Log, name: string)
    ensures ViewRight(sem, log, name, View(0, sem.initial)) && Below(log, 0) == 0
  {
    BelowZero(log);
  }

  // What the next record makes of a view.
  ghost predicate Forward<V>(sem: Semantics<V>, log: Log, name: string, v: View<V>, j: nat)
    requires j < |log|
  {
    if Writes(log, j, name) then ApplyOps(sem, v.contents, log[j].body.ops, name) == Replay(sem, log, name, j + 1)
    else UpTo(sem, log, name, v, log[j].seqnum + 1)
  }

  lemma {:induction false} ForwardStep<V>(sem: Semantics<V>, hash: string -> nat, log: Log, name: string, v: View<V>,
                                          s: nat, tail: nat)
    requires ValidLog(hash, log) && UpTo(sem, log, name, v, s) && s < tail
    ensures match ReadNext(log, ObjectTag(hash, name), s)
            case None => UpTo(sem, log, name, v, tail)
            case Some(j) =>
              && j < |log| && s <= log[j].seqnum
              && if log[j].seqnum >= tail then UpTo(sem, log, name, v, tail)
                 else Forward(sem, log, name, v, j)
  {
    WritersTagged(hash, log, name);
    NextSkips(log, Writers(log, name), ObjectTag(hash, name), s, tail);
    var r := ReadNext(log, ObjectTag(hash, name), s);
    if r.None? || log[r.value].seqnum >= tail {
      ViewSkips(sem, log, name, s, tail);
    } else {
      OneForward(sem, log, name, v, s, r.value);
    }
  }

  lemma {:induction false} OneForward<V>(sem: Semantics<V>, log: Log, name: string, v: View<V>, s: nat, j: nat)
    requires UpTo(sem, log, name, v, s) && Below(log, s) <= j < |log| && Below(log, log[j].seqnum + 1) == j + 1
    requires NoneIn(Writers(log, name), Below(log, s), j)
    ensures Forward(sem, log, name, v, j)
  {
    ReplaySkips(sem, log, name, Below(log, s), j);
    NextAfterSkips(log, Writers(log, name), Below(log, s), j);
  }

  function Replies<V>(sem: Semantics<V>, v: V, ops: seq<Op>): seq<string> {
    if ops == [] then []
    else
      var front, last := ops[..|ops| - 1], ops[|ops| - 1];
      Replies(sem, v, front) + [sem.reply(ApplyOps(sem, v, front, last.objName), last)]
  }

  /** Result k is the reply of operation k to the object as the operations before it have made it. */
  lemma {:induction false} RepliesAre<V>(sem: Semantics<V>, v: V, ops: seq<Op>)
    ensures |Replies(sem, v, ops)| == |ops|
    ensures forall k :: 0 <= k < |ops| ==>
              Replies(sem, v, ops)[k] == sem.reply(ApplyOps(sem, v, ops[..k], ops[k].objName), ops[k])
  {
    if ops != [] {
      var front := ops[..|ops| - 1];
      RepliesAre(sem, v, front);
      assert forall k :: 0 <= k < |front| ==> front[..k] == ops[..k];
    }
  }

  lemma {:induction false} WritesItself<V>(sem: Semantics<V>, log: Log, i: nat, name: string, ops: seq<Op>)
    requires Ordered(log) && i < |log| && log[i].body == NormalOp(ops) && ops != [] && ops[0].objName == name
    ensures Below(log, log[i].seqnum) == i
    ensures var before := Replay(sem, log, name, i);
            var v := View(log[i].seqnum + 1, ApplyOps(sem, before, ops, name));
            ViewRight(sem, log, name, v) && Written(sem, log, name, i, ops, Some(v), Replies(sem, before, ops))
  {
    assert ops[0] in ops;
    assert Writes(log, i, name);
    BelowAt(log, i);
    ViewAfter(sem, log, name, i);
  }

  // More records do not change what a view is worth.
  lemma {:induction false} ViewAtStays<V>(sem: Semantics<V>, hash: string -> nat, log: Log, log': Log, name: string,
                                          s: nat)
    requires ValidLog(hash, log') && log <= log' && Below(log', s) == Below(log, s)
    ensures ViewAt(sem, log', name, s) == ViewAt(sem, log, name, s)
  {
    var more := log'[|log|..];
    assert log' == log + more;
    ReplayStays(sem, log, more, name, Below(log, s));
    WritersStay(log, more, name);
    NextAfterStays(log, Writers(log, name), log', Writers(log', name), Below(log, s));
  }

  lemma {:induction false} ViewStays<V>(sem: Semantics<V>, hash: string -> nat, log: Log, log': Log, name: string,
                                        v: View<V>)
    requires ValidLog(hash, log) && ValidLog(hash, log') && log <= log'
    requires ViewRight(sem, log, name, v)
    ensures ViewRight(sem, log', name, v)
  {
    ViewReached(sem, log, name, v);
    SnapshotStays(log, log', v.next);
    ViewAtStays(sem, hash, log, log', name, v.next);
  }

  lemma {:induction false} ViewReached<V>(sem: Semantics<V>, log: Log, name: string, v: View<V>)
    requires Ordered(log) && ViewRight(sem, log, name, v)
    ensures Reached(log, v.next)
  {
  }

  // A view lies below every record appended after it.
  lemma {:induction false} ViewBelowRecord<V>(sem: Semantics<V>, log: Log, log': Log, name: string, v: View<V>)
    requires Ordered(log) && Ordered(log') && |log| < |log'| && log == log'[..|log|] && ViewRight(sem, log, name, v)
    ensures v.next <= log'[|log'| - 1].seqnum
  {
    var n := Below(log, v.next);
    if v.next != 0 {
      assert log'[n - 1] == log[n - 1];
    }
  }

  lemma {:induction false} RedoStep<V>(sem: Semantics<V>, log: Log, name: string, ps: seq<nat>, i: nat, v: View<V>,
                                       tail: nat)
    requires Ordered(log) && ViewRight(sem, log, name, v) && i < |ps| && Todo(log, name, ps[..i + 1], v.next, tail)
    ensures ps[i] < |log| && v.next <= log[ps[i]].seqnum && Writes(log, ps[i], name)
    ensures ApplyOps(sem, v.contents, log[ps[i]].body.ops, name) == Replay(sem, log, name, ps[i] + 1)
    ensures ViewRight(sem, log, name, View(log[ps[i]].seqnum + 1, Replay(sem, log, name, ps[i] + 1)))
    ensures Todo(log, name, ps[..i], log[ps[i]].seqnum + 1, tail)
  {
    assert ps[..i + 1][..i] == ps[..i];
    TrailLast(Writers(log, name), Below(log, v.next), Below(log, tail));
    ReplaySkips(sem, log, name, Below(log, v.next), ps[i]);
    BelowAt(log, ps[i]);
    BelowIs(log, v.next);
    ViewAfter(sem, log, name, ps[i]);
  }
}
