/** The queue library: bringing a queue up to date, pushing and popping. */
module QueueRefs {
  import opened Options
  import opened SharedLogs
  import opened Queues

  // Cached: the state after a record of its queue.
  predicate AllAux(log: Log, aux: map<nat, State>) {
    forall i :: i in aux ==> AuxOk(log, i, aux[i])
  }

  predicate AuxOk(log: Log, i: nat, a: State) {
    i < |log| && a == Replay(log, log[i].body.queue, i + 1)
  }

  lemma {:induction false} AuxStays(log: Log, more: Log, aux: map<nat, State>)
    requires AllAux(log, aux) && Ordered(log) && Ordered(log + more)
    ensures AllAux(log + more, aux)
  {
    forall i | i in aux
      ensures AuxOk(log + more, i, aux[i])
    {
      assert AuxOk(log, i, aux[i]);
      ReplayStays(log, more, log[i].body.queue, i + 1);
    }
  }

  lemma {:induction false} ValidMore(hash: string -> nat, log: Log, r: Record<Body>)
    requires ValidLog(hash, log) && WellFormed(hash, r) && NextSeqnum(log) <= r.seqnum < MAX_SEQNUM
    ensures ValidLog(hash, log + [r])
  {
    var log' := log + [r];
    OrderedMore(log, r);
    forall i | 0 <= i < |log'|
      ensures WellFormed(hash, log'[i])
    {
      assert i < |log| ==> WellFormed(hash, log[i]);
    }
  }

  lemma {:induction false} OneAppended(hash: string -> nat, log: Log, tags: set<nat>, body: Body) returns (log': Log)
    requires ValidLog(hash, log) && Room(log) && WellFormed(hash, Record(0, tags, body))
    ensures ValidLog(hash, log') && Appended(log, log', tags, body)
  {
    var r := Record(NextSeqnum(log), tags, body);
    ValidMore(hash, log, r);
    log' := log + [r];
  }

  class Env {
    const hash: string -> nat
    var log: Log
    var aux: map<nat, State>

    ghost predicate Valid()
      reads this
    {
      ValidLog(hash, log) && AllAux(log, aux)
    }

    constructor (hash: string -> nat)
      ensures Valid() && log == [] && aux == map[] && this.hash == hash
    {
      this.hash, log, aux := hash, [], map[];
    }

    method Append(tags: set<nat>, body: Body) returns (i: nat)
      requires Valid() && Room(log) && WellFormed(hash, Record(0, tags, body))
      modifies this`log
      ensures Valid() && Appended(old(log), log, tags, body) && i == |log| - 1
    {
      ghost var one := OneAppended(hash, log, tags, body);
      var log': Log :| ValidLog(hash, log') && Appended(log, log', tags, body);
      assert Appended(log, log', tags, body);
      LogGrows(log');
      i := |log| - 1;
    }

    method LogGrows(log': Log)
      requires Valid() && ValidLog(hash, log') && log <= log'
      modifies this`log
      ensures Valid() && log == log'
    {
      assert log' == log + log'[|log|..];
      AuxStays(log, log'[|log|..], aux);
      log := log';
    }

    // The auxiliary data read with a record: whatever is left of what this and other processes wrote.
    method Load(i: nat) returns (a: Option<State>)
      requires Valid() && i < |log|
      modifies this`aux
      ensures Valid() && (a.Some? ==> AuxOk(log, i, a.value))
    {
      assert AllAux(log, map[]);
      var left: map<nat, State> :| AllAux(log, left);
      assert AllAux(log, left);
      aux := left;
      a := if i in aux then Some(aux[i]) else None;
    }

    method SetAux(i: nat, a: State)
      requires Valid() && AuxOk(log, i, a)
      modifies this`aux
      ensures Valid() && aux == old(aux)[i := a]
    {
      aux := aux[i := a];
    }
  }

  // ------------------------------------------------------------------------
  // Reading the records of a queue

  // The records of a queue.
  ghost function Records(log: Log, name: string): set<nat> {
    set i: nat | i < |log| && Mine(log, i, name)
  }

  ghost predicate StateRight(log: Log, name: string, st: State, next: nat) {
    var n := Below(log, next);
    && UpTo(log, name, st, next, next)
    && (next == 0 || (n > 0 && next == log[n - 1].seqnum + 1))
  }

  // The records still to apply, newest first, to get from sequence number s to the tail.
  ghost predicate Todo(log: Log, name: string, ps: seq<nat>, s: nat, tail: nat) {
    TrailFrom(log, Records(log, name), ps, s, tail)
  }

  lemma {:induction false} RecordsTagged(hash: string -> nat, log: Log, name: string)
    requires ValidLog(hash, log)
    ensures Tagged(log, Records(log, name), QueueTag(hash, name))
  {
    forall i | i in Records(log, name)
      ensures QueueTag(hash, name) in log[i].tags
    {
      MineShowsInTag(hash, log, i, name);
    }
  }

  lemma {:induction false} ReplaySkips(log: Log, name: string, a: nat, b: nat)
    requires a <= b <= |log| && NoneIn(Records(log, name), a, b)
    ensures Replay(log, name, b) == Replay(log, name, a)
    ensures NextAfter(log, Records(log, name), b) == NextAfter(log, Records(log, name), a)
    decreases b
  {
    if a < b {
      assert b - 1 !in Records(log, name);
      ReplaySkips(log, name, a, b - 1);
    }
  }

  lemma {:induction false} MineShowsInTag(hash: string -> nat, log: Log, i: nat, name: string)
    requires ValidLog(hash, log) && i < |log|
    ensures Mine(log, i, name) ==> QueueTag(hash, name) in log[i].tags
    ensures MyPush(log, i, name) ==> PushTag(hash, name) in log[i].tags
  {
    assert WellFormed(hash, log[i]);
  }

  lemma {:induction false} RedoStep(log: Log, name: string, ps: seq<nat>, i: nat, st: State, next: nat, tail: nat)
    requires Ordered(log) && StateRight(log, name, st, next) && i < |ps| && Todo(log, name, ps[..i + 1], next, tail)
    ensures ps[i] < |log| && next <= log[ps[i]].seqnum && Mine(log, ps[i], name)
    ensures Apply(log, name, st, ps[i]) == Replay(log, name, ps[i] + 1)
    ensures StateRight(log, name, Replay(log, name, ps[i] + 1), log[ps[i]].seqnum + 1)
    ensures Todo(log, name, ps[..i], log[ps[i]].seqnum + 1, tail)
  {
    assert ps[..i + 1][..i] == ps[..i];
    TrailLast(Records(log, name), Below(log, next), Below(log, tail));
    BelowIs(log, next);
    ApplySkipped(log, name, st, next, ps[i]);
  }

  // Applying the first record of the queue that a state lacks.
  lemma {:induction false} ApplySkipped(log: Log, name: string, st: State, next: nat, j: nat)
    requires Ordered(log) && StateRight(log, name, st, next) && Below(log, next) <= j < |log| && Mine(log, j, name)
    requires NoneIn(Records(log, name), Below(log, next), j)
    ensures Apply(log, name, st, j) == Replay(log, name, j + 1) && Below(log, log[j].seqnum + 1) == j + 1
    ensures StateRight(log, name, Replay(log, name, j + 1), log[j].seqnum + 1)
  {
    ReplaySkips(log, name, Below(log, next), j);
    BelowAt(log, j);
  }

  lemma {:induction false} NothingToRedo(log: Log, name: string, st: State, next: nat, tail: nat)
    requires StateRight(log, name, st, next) && Todo(log, name, [], next, tail)
    ensures UpTo(log, name, st, next, tail)
  {
    TrailEmpty(Records(log, name), Below(log, next), Below(log, tail));
    StateSkips(log, name, st, next, next, tail);
  }

  // The state of the queue as of sequence number s.
  ghost predicate UpTo(log: Log, name: string, st: State, next: nat, s: nat) {
    st == Replay(log, name, Below(log, s)) && next == NextAfter(log, Records(log, name), Below(log, s))
  }

  // The state after a record of the queue.
  lemma {:induction false} AfterRecord(log: Log, name: string, j: nat)
    requires Ordered(log) && j < |log| && Mine(log, j, name)
    ensures var st, next := Replay(log, name, j + 1), log[j].seqnum + 1;
            StateRight(log, name, st, next) && UpTo(log, name, st, next, next) && AuxOk(log, j, st)
  {
    BelowAt(log, j);
    assert j in Records(log, name);
  }

  // What the next record makes of a state.
  ghost predicate Forward(log: Log, name: string, st: State, next: nat, j: nat)
    requires j < |log|
  {
    if Mine(log, j, name) then Apply(log, name, st, j) == Replay(log, name, j + 1)
    else UpTo(log, name, st, next, log[j].seqnum + 1)
  }

  lemma {:induction false} ForwardStep(hash: string -> nat, log: Log, name: string, st: State, next: nat, s: nat,
                                       tail: nat)
    requires ValidLog(hash, log) && UpTo(log, name, st, next, s) && s < tail
    ensures match ReadNext(log, QueueTag(hash, name), s)
            case None => UpTo(log, name, st, next, tail)
            case Some(j) =>
              && j < |log| && s <= log[j].seqnum
              && if log[j].seqnum >= tail then UpTo(log, name, st, next, tail) else Forward(log, name, st, next, j)
  {
    RecordsTagged(hash, log, name);
    NextSkips(log, Records(log, name), QueueTag(hash, name), s, tail);
    var r := ReadNext(log, QueueTag(hash, name), s);
    if r.None? || log[r.value].seqnum >= tail {
      StateSkips(log, name, st, next, s, tail);
    } else {
      OneForward(log, name, st, next, s, r.value);
    }
  }

  lemma {:induction false} StateSkips(log: Log, name: string, st: State, next: nat, s: nat, tail: nat)
    requires UpTo(log, name, st, next, s) && Below(log, s) <= Below(log, tail)
    requires NoneIn(Records(log, name), Below(log, s), Below(log, tail))
    ensures UpTo(log, name, st, next, tail)
  {
    ReplaySkips(log, name, Below(log, s), Below(log, tail));
  }

  lemma {:induction false} OneForward(log: Log, name: string, st: State, next: nat, s: nat, j: nat)
    requires UpTo(log, name, st, next, s) && Below(log, s) <= j < |log| && Below(log, log[j].seqnum + 1) == j + 1
    requires NoneIn(Records(log, name), Below(log, s), j)
    ensures Forward(log, name, st, next, j)
  {
    ReplaySkips(log, name, Below(log, s), j);
  }

  // One read of findNext.
  lemma {:induction false} FindStep(hash: string -> nat, log: Log, name: string, s: nat, max: nat)
    requires ValidLog(hash, log) && s < max
    ensures var first := FirstPush(log, name, Below(log, s), Below(log, max));
            match ReadNext(log, PushTag(hash, name), s)
            case None => first == None
            case Some(j) =>
              && j < |log| && s <= log[j].seqnum
              && if log[j].seqnum >= max then first == None
                 else if MyPush(log, j, name) then first == Some(j)
                 else first == FirstPush(log, name, Below(log, log[j].seqnum + 1), Below(log, max))
  {
    var tag := PushTag(hash, name);
    ReadNextIs(log, tag, s);
    BelowIs(log, s);
    BelowIs(log, max);
    forall i: nat | i < |log| && MyPush(log, i, name)
      ensures tag in log[i].tags
    {
      MineShowsInTag(hash, log, i, name);
    }
    var r := ReadNext(log, tag, s);
    var stop := if r.None? || log[r.value].seqnum >= max then Below(log, max) else r.value;
    if Below(log, s) <= stop {
      FirstPushSkips(log, name, Below(log, s), stop, Below(log, max));
    }
    if r.Some? {
      BelowAt(log, r.value);
    }
  }

  lemma {:induction false} FirstPushSkips(log: Log, name: string, lo: nat, mid: nat, hi: nat)
    requires lo <= mid <= hi <= |log| && NoPush(log, name, lo, mid)
    ensures FirstPush(log, name, lo, hi) == FirstPush(log, name, mid, hi)
    decreases mid - lo
  {
    if lo < mid {
      FirstPushSkips(log, name, lo + 1, mid, hi);
    }
  }

  lemma {:induction false} UpToStays(hash: string -> nat, log: Log, log': Log, name: string, st: State, next: nat, s: nat)
    requires ValidLog(hash, log) && ValidLog(hash, log') && log <= log' && Below(log', s) == Below(log, s)
    requires UpTo(log, name, st, next, s)
    ensures UpTo(log', name, st, next, s)
  {
    var more := log'[|log|..];
    assert log' == log + more;
    ReplayStays(log, more, name, Below(log, s));
    RecordsStay(log, log', name);
    NextAfterStays(log, Records(log, name), log', Records(log', name), Below(log, s));
  }

  lemma {:induction false} RecordsStay(log: Log, log': Log, name: string)
    requires log <= log'
    ensures forall i: nat :: i < |log| ==> (i in Records(log, name) <==> i in Records(log', name))
  {
  }

  lemma {:induction false} StateStays(hash: string -> nat, log: Log, log': Log, name: string, st: State, next: nat)
    requires ValidLog(hash, log) && ValidLog(hash, log') && |log| < |log'| && log == log'[..|log|]
    requires StateRight(log, name, st, next)
    ensures StateRight(log', name, st, next) && next <= log'[|log'| - 1].seqnum
  {
    NextReached(log, name, st, next);
    SnapshotStays(log, log', next);
    UpToStays(hash, log, log', name, st, next, next);
    StateBelowRecord(log, log', name, st, next);
  }

  lemma {:induction false} NextReached(log: Log, name: string, st: State, next: nat)
    requires Ordered(log) && StateRight(log, name, st, next)
    ensures Reached(log, next) && next <= MAX_SEQNUM
  {
  }

  lemma {:induction false} StateBelowRecord(log: Log, log': Log, name: string, st: State, next: nat)
    requires Ordered(log) && Ordered(log') && |log| < |log'| && log == log'[..|log|] && StateRight(log, name, st, next)
    ensures next <= log'[|log'| - 1].seqnum
  {
    var n := Below(log, next);
    if next != 0 {
      assert log'[n - 1] == log[n - 1];
    }
  }

  // ------------------------------------------------------------------------
  // The library

  class Queue {
    const env: Env
    const name: string
    var consumed: nat
    var tail: nat
    var next: nat

    ghost predicate Valid()
      reads this, env
    {
      env.Valid() && StateRight(env.log, name, State(consumed, tail), next)
    }

    constructor (env: Env, name: string)
      requires env.Valid()
      modifies env`aux
      ensures Valid() && this.env == env && this.name == name
      ensures State(consumed, tail) == Replay(env.log, name, |env.log|)
    {
      this.env, this.name := env, name;
      consumed, tail, next := 0, 0, 0;
      new;
      BelowZero(env.log);
      var _ := SyncToBackward(MAX_SEQNUM);
    }

    predicate IsEmpty()
      reads this
    {
      consumed >= tail
    }

    // false is the error for an empty payload.
    method Push(payload: string) returns (ok: bool)
      requires Valid() && Room(env.log)
      modifies env`log
      ensures Valid() && (ok <==> payload != "") && (!ok ==> env.log == old(env.log))
      ensures ok ==> |env.log| > |old(env.log)| && old(env.log) == env.log[..|old(env.log)|]
      ensures ok ==> env.log[|env.log| - 1].body == Body.Push(name, payload)
    {
      if payload == "" {
        return false;
      }
      ghost var before := env.log;
      var _ := env.Append({QueueTag(env.hash, name), PushTag(env.hash, name)}, Body.Push(name, payload));
      StateStays(env.hash, before, env.log, name, State(consumed, tail), next);
      ok := true;
    }

    method FindNext(min: nat, max: nat) returns (r: Option<nat>)
      requires env.Valid()
      ensures r == FirstPush(env.log, name, Below(env.log, min), Below(env.log, max))
    {
      var log, tag, seqnum := env.log, PushTag(env.hash, name), min;
      while seqnum < max
        invariant FirstPush(log, name, Below(log, seqnum), Below(log, max))
               == FirstPush(log, name, Below(log, min), Below(log, max))
        decreases max - seqnum
      {
        FindStep(env.hash, log, name, seqnum, max);
        var found := ReadNext(log, tag, seqnum);
        if found.None? || log[found.value].seqnum >= max {
          return None;
        }
        if MyPush(log, found.value, name) {
          return found;
        }
        seqnum := log[found.value].seqnum + 1;
      }
      BelowMonotone(log, max, seqnum);
      r := None;
    }

    method ApplyLog(i: nat)
      requires env.Valid() && i < |env.log| && next <= env.log[i].seqnum
      modifies this`consumed, this`tail, this`next
      ensures State(consumed, tail) == Apply(env.log, name, old(State(consumed, tail)), i) && next == env.log[i].seqnum + 1
    {
      if env.log[i].body.Push? {
        tail := env.log[i].seqnum + 1;
      } else {
        var p := FindNext(consumed, tail);
        if p.Some? {
          consumed := env.log[p.value].seqnum + 1;
        } else {
          consumed := env.log[i].seqnum;
        }
      }
      next := env.log[i].seqnum + 1;
    }

    // One step back: `more` unless the search is over; a cached state replaces the current one.
    method CollectOne(seqnum: nat, ghost goal: nat, ps: seq<nat>) returns (more: bool, seqnum': nat, ps': seq<nat>)
      requires Valid() && next < seqnum <= goal && Todo(env.log, name, ps, seqnum, goal)
      modifies this`consumed, this`tail, this`next, env`aux
      ensures Valid() && next <= goal && seqnum' <= seqnum && (more ==> next == old(next) <= seqnum' < seqnum)
      ensures if more then Todo(env.log, name, ps', seqnum', goal) else Todo(env.log, name, ps', next, goal)
    {
      more, seqnum', ps' := false, seqnum, ps;
      var r := StepBack(seqnum, goal, ps);
      if r.None? {
        return;
      }
      var log, j := env.log, r.value;
      seqnum' := log[j].seqnum;
      var cached := Examine(j);
      if cached {
        assert next == log[j].seqnum + 1;
        return;
      }
      if Mine(log, j, name) {
        ps' := ps + [j];
      }
      more := true;
    }

    // The record before a sequence number, unless nothing is left to collect.
    method StepBack(seqnum: nat, ghost goal: nat, ghost ps: seq<nat>) returns (r: Option<nat>)
      requires Valid() && next < seqnum <= goal && Todo(env.log, name, ps, seqnum, goal)
      ensures match r
              case None => Todo(env.log, name, ps, next, goal)
              case Some(j) =>
                && j < |env.log| && next <= env.log[j].seqnum < seqnum
                && (Mine(env.log, j, name) ==> Todo(env.log, name, ps + [j], env.log[j].seqnum, goal))
                && (!Mine(env.log, j, name) ==> Todo(env.log, name, ps, env.log[j].seqnum, goal))
                && Todo(env.log, name, ps, env.log[j].seqnum + 1, goal)
    {
      var log := env.log;
      var q := if seqnum != MAX_SEQNUM then seqnum - 1 else seqnum;
      r := ReadPrev(log, QueueTag(env.hash, name), q);
      RecordsTagged(env.hash, log, name);
      CollectStep(log, Records(log, name), QueueTag(env.hash, name), ps, seqnum, q, next, goal);
      assert r.Some? ==> (r.value in Records(log, name) <==> Mine(log, r.value, name));
      if r.Some? && log[r.value].seqnum < next {
        r := None;
      }
    }

    // Whether the state after a record is cached; then it is taken.
    method Examine(j: nat) returns (cached: bool)
      requires Valid() && j < |env.log|
      modifies this`consumed, this`tail, this`next, env`aux
      ensures Valid() && (cached ==> next == env.log[j].seqnum + 1) && (!cached ==> next == old(next))
    {
      var a := env.Load(j);
      cached := Mine(env.log, j, name) && a.Some?;
      if cached {
        TakeCached(j, a.value);
      }
    }

    method TakeCached(j: nat, a: State)
      requires env.Valid() && j < |env.log| && Mine(env.log, j, name) && AuxOk(env.log, j, a)
      modifies this`consumed, this`tail, this`next
      ensures Valid() && next == env.log[j].seqnum + 1
    {
      AfterRecord(env.log, name, j);
      next, consumed, tail := env.log[j].seqnum + 1, a.consumed, a.tail;
    }

    method RedoOne(ps: seq<nat>, i: nat, ghost goal: nat)
      requires Valid() && i < |ps| && Todo(env.log, name, ps[..i + 1], next, goal)
      modifies this`consumed, this`tail, this`next, env`aux
      ensures Valid() && Todo(env.log, name, ps[..i], next, goal)
    {
      var log, j := env.log, ps[i];
      RedoStep(log, name, ps, i, State(consumed, tail), next, goal);
      ApplyRecord(j, None);
    }

    /** syncTo.  false is the abort on a tail before the current state.  Whatever is cached, the state
        becomes that of the replay of all records below the tail. */
    method SyncToBackward(goal: nat) returns (ok: bool)
      requires Valid()
      modifies this`consumed, this`tail, this`next, env`aux
      ensures Valid() && (ok <==> old(next) <= goal)
      ensures ok ==> UpTo(env.log, name, State(consumed, tail), next, goal)
    {
      if goal < next {
        return false;
      }
      if goal == next {
        return true;
      }
      var seqnum: nat, more, ps := goal, true, [];
      while seqnum > next && more
        invariant Valid() && next <= goal && seqnum <= goal && (more ==> next <= seqnum)
        invariant if more then Todo(env.log, name, ps, seqnum, goal) else Todo(env.log, name, ps, next, goal)
        decreases more, seqnum
      {
        more, seqnum, ps := CollectOne(seqnum, goal, ps);
      }
      var i := |ps|;
      assert ps[..i] == ps;
      while i > 0
        invariant 0 <= i <= |ps| && Valid() && Todo(env.log, name, ps[..i], next, goal)
      {
        i := i - 1;
        RedoOne(ps, i, goal);
      }
      assert ps[..0] == [];
      NothingToRedo(env.log, name, State(consumed, tail), next, goal);
      ok := true;
    }

    /** The same by reading forwards. */
    method SyncToForward(goal: nat) returns (ok: bool)
      requires Valid()
      modifies this`consumed, this`tail, this`next, env`aux
      ensures Valid() && (ok <==> old(next) <= goal)
      ensures ok ==> UpTo(env.log, name, State(consumed, tail), next, goal)
    {
      if goal < next {
        return false;
      }
      var seqnum, more := next, true;
      while seqnum < goal && more
        invariant Valid() && next <= seqnum <= goal
        invariant if more then UpTo(env.log, name, State(consumed, tail), next, seqnum)
                  else UpTo(env.log, name, State(consumed, tail), next, goal)
        decreases more, goal - seqnum
      {
        more, seqnum := ForwardOne(seqnum, goal);
      }
      ok := true;
    }

    method ForwardOne(seqnum: nat, goal: nat) returns (more: bool, seqnum': nat)
      requires Valid() && next <= seqnum < goal && UpTo(env.log, name, State(consumed, tail), next, seqnum)
      modifies this`consumed, this`tail, this`next, env`aux
      ensures Valid() && next <= seqnum' <= goal && (more ==> seqnum < seqnum')
      ensures if more then UpTo(env.log, name, State(consumed, tail), next, seqnum')
              else UpTo(env.log, name, State(consumed, tail), next, goal)
    {
      var r := NextRecord(seqnum, goal);
      if r.None? {
        return false, seqnum;
      }
      more := true;
      seqnum' := TakeRecord(r.value);
    }

    // The next record with the queue's tag below the goal.
    method NextRecord(seqnum: nat, goal: nat) returns (r: Option<nat>)
      requires env.Valid() && UpTo(env.log, name, State(consumed, tail), next, seqnum) && seqnum < goal
      ensures r.None? ==> UpTo(env.log, name, State(consumed, tail), next, goal)
      ensures r.Some? ==> r.value < |env.log| && seqnum <= env.log[r.value].seqnum < goal
      ensures r.Some? ==> Forward(env.log, name, State(consumed, tail), next, r.value)
    {
      r := ReadNext(env.log, QueueTag(env.hash, name), seqnum);
      ForwardStep(env.hash, env.log, name, State(consumed, tail), next, seqnum, goal);
      if r.Some? && env.log[r.value].seqnum >= goal {
        r := None;
      }
    }

    method TakeRecord(j: nat) returns (seqnum: nat)
      requires Valid() && j < |env.log| && next <= env.log[j].seqnum
      requires Forward(env.log, name, State(consumed, tail), next, j)
      modifies this`consumed, this`tail, this`next, env`aux
      ensures Valid() && next <= seqnum == env.log[j].seqnum + 1
      ensures UpTo(env.log, name, State(consumed, tail), next, seqnum)
    {
      seqnum := env.log[j].seqnum + 1;
      var a := env.Load(j);
      if Mine(env.log, j, name) {
        ApplyRecord(j, a);
      }
    }

    // Applies a record, and caches the state after it unless one was cached.
    method ApplyRecord(j: nat, a: Option<State>)
      requires env.Valid() && j < |env.log| && Mine(env.log, j, name) && next <= env.log[j].seqnum
      requires Apply(env.log, name, State(consumed, tail), j) == Replay(env.log, name, j + 1)
      modifies this`consumed, this`tail, this`next, env`aux
      ensures Valid() && next == env.log[j].seqnum + 1 && UpTo(env.log, name, State(consumed, tail), next, next)
    {
      var log := env.log;
      AfterRecord(log, name, j);
      ApplyLog(j);
      if a.None? {
        env.SetAux(j, State(consumed, tail));
      }
    }

    /** A pop takes effect at its record: it returns the payload of the head of the queue there, or
        nothing if the queue is empty there.  Without a record, the queue was found empty. */
    method Pop() returns (at: Option<nat>, r: Option<string>)
      requires Valid() && Room(env.log)
      modifies this`consumed, this`tail, this`next, env`aux, env`log
      ensures Valid()
      ensures at.Some? ==>
                && Appended(old(env.log), env.log, {QueueTag(env.hash, name)}, Body.Pop(name)) && at.value == |env.log| - 1
                && r == Payload(env.log, Head(env.log, name, at.value))
      ensures at.None? ==> env.log == old(env.log) && r == None && Waiting(env.log, name, |env.log|) == []
    {
      if IsEmpty() {
        var empty := FoundEmpty();
        if empty {
          return None, None;
        }
      }
      var i := AppendPop();
      at := Some(i);
      r := FinishPop(i);
    }

    method AppendPop() returns (i: nat)
      requires Valid() && Room(env.log)
      modifies env`log
      ensures Valid() && Appended(old(env.log), env.log, {QueueTag(env.hash, name)}, Body.Pop(name))
      ensures i == |env.log| - 1 && next <= env.log[i].seqnum
    {
      ghost var before := env.log;
      i := env.Append({QueueTag(env.hash, name)}, Body.Pop(name));
      StateStays(env.hash, before, env.log, name, State(consumed, tail), next);
    }

    method FoundEmpty() returns (empty: bool)
      requires Valid()
      modifies this`consumed, this`tail, this`next, env`aux
      ensures Valid() && (empty <==> Waiting(env.log, name, |env.log|) == [])
    {
      AllBelowMax(env.log);
      NextReached(env.log, name, State(consumed, tail), next);
      var _ := SyncToBackward(MAX_SEQNUM);
      ReplayIsQueue(env.log, name, |env.log|);
      empty := IsEmpty();
    }

    method FinishPop(i: nat) returns (r: Option<string>)
      requires Valid() && i < |env.log| && next <= env.log[i].seqnum
      modifies this`consumed, this`tail, this`next, env`aux
      ensures Valid() && r == Payload(env.log, Head(env.log, name, i))
    {
      var log := env.log;
      BelowAt(log, i);
      var _ := SyncToBackward(log[i].seqnum);
      ReplayIsQueue(log, name, i);
      var p := FindNext(consumed, tail);
      r := if p.Some? then Some(log[p.value].body.payload) else None;
    }
  }
}
