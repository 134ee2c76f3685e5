/**
 Queues over the shared log.

 Pushes and pops are records.  A queue is replayed into two sequence numbers: every
 push below `consumed` has been popped, and `tail` lies right after the last push.
 */
module Queues {
  import opened Options
  import opened SharedLogs

  datatype Body = Push(queue: string, payload: string) | Pop(queue: string)

  type Log = seq<Record<Body>>

  function QueueTag(hash: string -> nat, name: string): nat { (hash(name) * 8) % TWO64 + 4 }
  function PushTag(hash: string -> nat, name: string): nat { (hash(name) * 8) % TWO64 + 5 }

  // What the library appends; names may collide in their tags.
  predicate WellFormed(hash: string -> nat, r: Record<Body>) {
    match r.body
    case Push(name, payload) => r.tags == {QueueTag(hash, name), PushTag(hash, name)} && payload != ""
    case Pop(name) => r.tags == {QueueTag(hash, name)}
  }

  predicate ValidLog(hash: string -> nat, log: Log) {
    && Ordered(log)
    && forall i {:trigger WellFormed(hash, log[i])} :: 0 <= i < |log| ==> WellFormed(hash, log[i])
  }

  predicate Mine(log: Log, i: nat, name: string)
    requires i < |log|
  {
    log[i].body.queue == name
  }

  predicate MyPush(log: Log, i: nat, name: string)
    requires i < |log|
  {
    log[i].body.Push? && log[i].body.queue == name
  }

  // ------------------------------------------------------------------------
  // What the library computes

  datatype State = State(consumed: nat, tail: nat)

  // findNext: the first push in a range of positions.
  function FirstPush(log: Log, name: string, lo: nat, hi: nat): (r: Option<nat>)
    requires hi <= |log|
    ensures r.Some? ==> lo <= r.value < hi && MyPush(log, r.value, name)
    decreases hi - lo
  {
    if lo >= hi then None else if MyPush(log, lo, name) then Some(lo) else FirstPush(log, name, lo + 1, hi)
  }

  function NextPush(log: Log, name: string, st: State): Option<nat> {
    FirstPush(log, name, Below(log, st.consumed), Below(log, st.tail))
  }

  // applyLog
  function Apply(log: Log, name: string, st: State, i: nat): State
    requires i < |log|
  {
    if log[i].body.Push? then st.(tail := log[i].seqnum + 1)
    else
      match NextPush(log, name, st)
      case Some(p) => st.(consumed := log[p].seqnum + 1)
      case None => st.(consumed := log[i].seqnum)
  }

  function Replay(log: Log, name: string, n: nat): State
    requires n <= |log|
  {
    if n == 0 then State(0, 0)
    else
      var st := Replay(log, name, n - 1);
      if Mine(log, n - 1, name) then Apply(log, name, st, n - 1) else st
  }

  // ------------------------------------------------------------------------
  // What a queue is

  // The pushes waiting after the first n records, oldest first.
  ghost function Waiting(log: Log, name: string, n: nat): seq<nat>
    requires n <= |log|
  {
    if n == 0 then []
    else
      var w := Waiting(log, name, n - 1);
      if !Mine(log, n - 1, name) then w
      else if log[n - 1].body.Push? then w + [n - 1]
      else if w == [] then []
      else w[1..]
  }

  // All pushes, and those taken out by pops, in order.
  ghost function Pushed(log: Log, name: string, n: nat): seq<nat>
    requires n <= |log|
  {
    if n == 0 then [] else Pushed(log, name, n - 1) + if MyPush(log, n - 1, name) then [n - 1] else []
  }

  ghost function Popped(log: Log, name: string, n: nat): seq<nat>
    requires n <= |log|
  {
    if n == 0 then []
    else
      var w := Waiting(log, name, n - 1);
      Popped(log, name, n - 1)
      + if Mine(log, n - 1, name) && log[n - 1].body.Pop? && w != [] then [w[0]] else []
  }

  /** First in, first out, each once: what has been popped followed by what waits is what was pushed. */
  lemma {:induction false} Fifo(log: Log, name: string, n: nat)
    requires n <= |log|
    ensures Popped(log, name, n) + Waiting(log, name, n) == Pushed(log, name, n)
  {
    if n > 0 {
      Fifo(log, name, n - 1);
    }
  }

  // ------------------------------------------------------------------------
  // What pops return

  // The push at the head of the queue before record i.
  ghost function Head(log: Log, name: string, i: nat): Option<nat>
    requires i <= |log|
  {
    var w := Waiting(log, name, i);
    if w == [] then None else Some(w[0])
  }

  ghost function Payload(log: Log, push: Option<nat>): Option<string> {
    if push.Some? && push.value < |log| && log[push.value].body.Push? then Some(log[push.value].body.payload) else None
  }

  // What waits are pushes of the queue; a pop returns nothing exactly when nothing waits.
  lemma {:induction false} HeadIsPush(log: Log, name: string, i: nat)
    requires i <= |log|
    ensures Head(log, name, i).Some? ==> Head(log, name, i).value < i && MyPush(log, Head(log, name, i).value, name)
    ensures Payload(log, Head(log, name, i)).None? <==> Waiting(log, name, i) == []
    ensures Waiting(log, name, i) != [] ==> Payload(log, Head(log, name, i)) == Some(log[Waiting(log, name, i)[0]].body.payload)
  {
    WaitingArePushes(log, name, i);
  }

  lemma {:induction false} WaitingArePushes(log: Log, name: string, n: nat)
    requires n <= |log|
    ensures forall k :: 0 <= k < |Waiting(log, name, n)| ==> Waiting(log, name, n)[k] < n && MyPush(log, Waiting(log, name, n)[k], name)
  {
    if n > 0 {
      WaitingArePushes(log, name, n - 1);
    }
  }

  predicate IsPop(log: Log, i: nat, name: string)
    requires i < |log|
  {
    Mine(log, i, name) && log[i].body.Pop?
  }

  lemma {:induction false} PoppedGrows(log: Log, name: string, m: nat, n: nat)
    requires m <= n <= |log|
    ensures Popped(log, name, m) <= Popped(log, name, n)
    decreases n
  {
    if m < n {
      PoppedGrows(log, name, m, n - 1);
    }
  }

  lemma {:induction false} PushedIncreases(log: Log, name: string, n: nat)
    requires n <= |log|
    ensures forall k :: 0 <= k < |Pushed(log, name, n)| ==> Pushed(log, name, n)[k] < n
    ensures forall j, k :: 0 <= j < k < |Pushed(log, name, n)| ==> Pushed(log, name, n)[j] < Pushed(log, name, n)[k]
  {
    if n > 0 {
      PushedIncreases(log, name, n - 1);
    }
  }

  // The head before a pop is the next of what is popped.
  lemma {:induction false} PopTakes(log: Log, name: string, i: nat)
    requires i < |log| && IsPop(log, i, name) && Head(log, name, i).Some?
    ensures Popped(log, name, i + 1) == Popped(log, name, i) + [Head(log, name, i).value]
  {
  }

  /** Of two pops that return something, the later returns a later push: no push is returned twice and
      pushes come out in order. */
  lemma {:induction false} PopsInOrder(log: Log, name: string, i: nat, j: nat)
    requires i < j < |log| && IsPop(log, i, name) && IsPop(log, j, name)
    requires Head(log, name, i).Some? && Head(log, name, j).Some?
    ensures Head(log, name, i).value < Head(log, name, j).value
  {
    PopTakes(log, name, i);
    PopTakes(log, name, j);
    PoppedGrows(log, name, i + 1, j);
    Fifo(log, name, j + 1);
    PushedIncreases(log, name, j + 1);
    var popped, k := Popped(log, name, j + 1), |Popped(log, name, i)|;
    assert Popped(log, name, i + 1)[k] == Popped(log, name, j)[k] == popped[k] == Head(log, name, i).value;
    assert popped[|popped| - 1] == Head(log, name, j).value;
    assert popped <= Pushed(log, name, j + 1);
  }

  /** A pop that finds the queue empty is preceded by a pop for every push. */
  lemma {:induction false} EmptyMeansAllPopped(log: Log, name: string, i: nat)
    requires i <= |log| && Head(log, name, i).None?
    ensures Popped(log, name, i) == Pushed(log, name, i)
  {
    Fifo(log, name, i);
  }

  // The future of the log does not matter.
  lemma {:induction false} WaitingStays(log: Log, more: Log, name: string, n: nat)
    requires n <= |log|
    ensures Waiting(log + more, name, n) == Waiting(log, name, n)
  {
    if n > 0 {
      WaitingStays(log, more, name, n - 1);
    }
  }

  /** What a pop has returned it has returned in every longer log. */
  lemma {:induction false} PopStays(log: Log, more: Log, name: string, i: nat)
    requires i <= |log|
    ensures Head(log + more, name, i) == Head(log, name, i)
    ensures Payload(log + more, Head(log + more, name, i)) == Payload(log, Head(log, name, i))
  {
    WaitingStays(log, more, name, i);
    HeadIsPush(log, name, i);
  }

  // ------------------------------------------------------------------------
  // The library computes the queue

  ghost function PushesIn(log: Log, name: string, lo: nat, hi: nat): seq<nat>
    requires hi <= |log|
    decreases hi
  {
    if lo >= hi then [] else PushesIn(log, name, lo, hi - 1) + if MyPush(log, hi - 1, name) then [hi - 1] else []
  }

  ghost predicate NoPush(log: Log, name: string, lo: nat, hi: nat)
    requires hi <= |log|
  {
    forall i: nat :: lo <= i < hi ==> !MyPush(log, i, name)
  }

  lemma {:induction false} FirstIsHead(log: Log, name: string, lo: nat, hi: nat)
    requires lo <= hi <= |log|
    ensures match FirstPush(log, name, lo, hi)
            case None => PushesIn(log, name, lo, hi) == [] && NoPush(log, name, lo, hi)
            case Some(p) => PushesIn(log, name, lo, hi) == [p] + PushesIn(log, name, p + 1, hi)
    decreases hi - lo
  {
    if lo < hi {
      PushesSplit(log, name, lo, hi);
      FirstIsHead(log, name, lo + 1, hi);
    }
  }

  lemma {:induction false} PushesSplit(log: Log, name: string, lo: nat, hi: nat)
    requires lo < hi <= |log|
    ensures PushesIn(log, name, lo, hi) == (if MyPush(log, lo, name) then [lo] else []) + PushesIn(log, name, lo + 1, hi)
    decreases hi
  {
    if lo + 1 < hi {
      PushesSplit(log, name, lo, hi - 1);
    } else {
      assert PushesIn(log, name, lo, lo) == [];
    }
  }

  lemma {:induction false} PushesUpTo(log: Log, name: string, lo: nat, mid: nat, hi: nat)
    requires mid <= hi <= |log| && NoPush(log, name, mid, hi)
    ensures PushesIn(log, name, lo, hi) == PushesIn(log, name, lo, mid)
    decreases hi
  {
    if mid < hi {
      PushesUpTo(log, name, lo, mid, hi - 1);
    }
  }

  // The two positions after n records, and the pushes between them.
  ghost predicate Right(log: Log, name: string, n: nat, st: State)
    requires n <= |log|
  {
    var a, b := Below(log, st.consumed), Below(log, st.tail);
    && a <= n && b <= n
    && (st.tail == 0 || (b > 0 && st.tail == log[b - 1].seqnum + 1 && MyPush(log, b - 1, name)))
    && NoPush(log, name, b, n)
    && PushesIn(log, name, a, n) == Waiting(log, name, n)
  }

  lemma {:induction false} PushRight(log: Log, name: string, n: nat, st: State)
    requires Ordered(log) && n < |log| && Right(log, name, n, st) && MyPush(log, n, name)
    ensures Right(log, name, n + 1, Apply(log, name, st, n))
  {
    BelowAt(log, n);
  }

  lemma {:induction false} PopRight(log: Log, name: string, n: nat, st: State)
    requires Ordered(log) && n < |log| && Right(log, name, n, st) && Mine(log, n, name) && log[n].body.Pop?
    ensures Right(log, name, n + 1, Apply(log, name, st, n))
  {
    var a, b := Below(log, st.consumed), Below(log, st.tail);
    HeadIsNext(log, name, n, st);
    match NextPush(log, name, st)
    case Some(p) =>
      BelowAt(log, p);
    case None =>
      BelowAt(log, n);
      assert PushesIn(log, name, n, n + 1) == [];
  }

  // findNext finds the head of the queue.
  lemma {:induction false} HeadIsNext(log: Log, name: string, n: nat, st: State)
    requires n <= |log| && Right(log, name, n, st)
    ensures match NextPush(log, name, st)
            case None => Waiting(log, name, n) == []
            case Some(p) => p < n && Waiting(log, name, n) == [p] + PushesIn(log, name, p + 1, n)
  {
    var a, b := Below(log, st.consumed), Below(log, st.tail);
    if a <= b {
      FirstIsHead(log, name, a, b);
      PushesUpTo(log, name, a, b, n);
      if NextPush(log, name, st).Some? {
        PushesUpTo(log, name, NextPush(log, name, st).value + 1, b, n);
      }
    } else {
      assert NoPush(log, name, a, n);
      PushesUpTo(log, name, a, a, n);
    }
  }

  lemma {:induction false} ReplayRight(log: Log, name: string, n: nat)
    requires Ordered(log) && n <= |log|
    ensures Right(log, name, n, Replay(log, name, n))
  {
    if n == 0 {
      BelowZero(log);
    } else {
      ReplayRight(log, name, n - 1);
      RightStep(log, name, n - 1, Replay(log, name, n - 1));
    }
  }

  lemma {:induction false} RightStep(log: Log, name: string, n: nat, st: State)
    requires Ordered(log) && n < |log| && Right(log, name, n, st)
    ensures Right(log, name, n + 1, if Mine(log, n, name) then Apply(log, name, st, n) else st)
  {
    if Mine(log, n, name) {
      if log[n].body.Push? {
        PushRight(log, name, n, st);
      } else {
        PopRight(log, name, n, st);
      }
    } else {
      OtherRight(log, name, n, st);
    }
  }

  lemma {:induction false} OtherRight(log: Log, name: string, n: nat, st: State)
    requires n < |log| && Right(log, name, n, st) && !Mine(log, n, name)
    ensures Right(log, name, n + 1, st)
  {
    assert !MyPush(log, n, name);
  }

  /** The two sequence numbers represent the queue: it is empty exactly when `consumed` has reached
      `tail`, and otherwise its head is the first push from `consumed` on. */
  lemma {:induction false} ReplayIsQueue(log: Log, name: string, n: nat)
    requires Ordered(log) && n <= |log|
    ensures var st, w := Replay(log, name, n), Waiting(log, name, n);
            && (st.consumed >= st.tail <==> w == [])
            && (match NextPush(log, name, st)
                case None => w == []
                case Some(p) => w != [] && w[0] == p)
  {
    ReplayRight(log, name, n);
    var st := Replay(log, name, n);
    HeadIsNext(log, name, n, st);
    BelowIs(log, st.consumed);
    BelowIs(log, st.tail);
    var a, b := Below(log, st.consumed), Below(log, st.tail);
    if st.consumed >= st.tail {
      BelowMonotone(log, st.tail, st.consumed);
    } else if b > 0 {
      assert log[b - 1].seqnum >= st.consumed;
      assert MyPush(log, b - 1, name);
      FirstIsHead(log, name, a, b);
    }
  }

  // The future of the log does not matter.
  lemma {:induction false} ReplayStays(log: Log, more: Log, name: string, n: nat)
    requires Ordered(log) && Ordered(log + more) && n <= |log|
    ensures Replay(log + more, name, n) == Replay(log, name, n)
  {
    if n > 0 {
      ReplayStays(log, more, name, n - 1);
      var st := Replay(log, name, n - 1);
      ReplayRight(log, name, n - 1);
      BelowStays(log, more, st.consumed);
      BelowStays(log, more, st.tail);
      FirstPushStays(log, more, name, Below(log, st.consumed), Below(log, st.tail));
    }
  }

  lemma {:induction false} FirstPushStays(log: Log, more: Log, name: string, lo: nat, hi: nat)
    requires hi <= |log|
    ensures FirstPush(log + more, name, lo, hi) == FirstPush(log, name, lo, hi)
    decreases hi - lo
  {
    if lo < hi {
      FirstPushStays(log, more, name, lo + 1, hi);
    }
  }
}
