/**
 The single-producer single-consumer ring of the IPC layer, as the interleaving of
 its loads and stores.  The head word carries the consumer's sleep bit.
 */
module SpscRing {

  const SLEEP_MASK: nat := 0x8000_0000_0000_0000

  // ------------------------------------------------------------------------
  // The head word

  predicate Sleeping(word: nat) { word >= SLEEP_MASK }
  function Awake(word: nat): nat { word % SLEEP_MASK }
  function Asleep(word: nat): nat { if Sleeping(word) then word else word + SLEEP_MASK }

  // ------------------------------------------------------------------------
  // The ring and its two threads

  datatype Producer<T> =
    | Outside
    | LoadedTail(message: T, current: nat, next: nat)
    | LoadedHead(message: T, current: nat, next: nat, head: nat)
    | StoredCell(message: T, next: nat)

  datatype Consumer<T> =
    | Away
    | LoadedWord(current: nat, clear: bool)
    | SeenTail(current: nat)
    | LoadedCell(message: T, current: nat)

  datatype Ring<T> = Ring(
    cells: seq<T>,
    head: nat,
    tail: nat,
    wakeup: bool,
    producer: Producer<T>,
    consumer: Consumer<T>,
    pushed: seq<T>,
    popped: seq<T>)

  // The next cell; the last is followed by the first.
  function Next(i: nat, size: nat): nat {
    if i + 1 == size then 0 else i + 1
  }

  datatype Step<T> =
    | PushStart(message: T)
    | LoadHead
    | StoreCell
    | Full
    | StoreTail
    | PopStart
    | ClearSleep
    | LoadTail
    | LoadCell
    | StoreHead
    | EnterSleep

  predicate Init<T>(r: Ring<T>) {
    && |r.cells| >= 2 && |r.cells| < SLEEP_MASK && r.head == 0 && r.tail == 0 && !r.wakeup
    && r.producer.Outside? && r.consumer.Away? && r.pushed == [] && r.popped == []
  }

  ghost predicate NextStep<T>(r: Ring<T>, r': Ring<T>, step: Step<T>) {
    match step
    case PushStart(m) =>
      r.producer.Outside? && r' == r.(producer := LoadedTail(m, r.tail, Next(r.tail, |r.cells|)))
    case LoadHead =>
      && r.producer.LoadedTail?
      && r' == r.(wakeup := Sleeping(r.head),
                  producer := LoadedHead(r.producer.message, r.producer.current, r.producer.next, Awake(r.head)))
    case StoreCell =>
      && r.producer.LoadedHead? && r.producer.next != r.producer.head && r.producer.current < |r.cells|
      && r' == r.(cells := r.cells[r.producer.current := r.producer.message],
                  producer := StoredCell(r.producer.message, r.producer.next))
    case Full =>
      r.producer.LoadedHead? && r.producer.next == r.producer.head && r' == r.(producer := Outside)
    case StoreTail =>
      && r.producer.StoredCell?
      && r' == r.(tail := r.producer.next, producer := Outside, pushed := r.pushed + [r.producer.message])
    case PopStart =>
      r.consumer.Away? && r' == r.(consumer := LoadedWord(Awake(r.head), Sleeping(r.head)))
    case ClearSleep =>
      && r.consumer.LoadedWord? && r.consumer.clear
      && r' == r.(head := Awake(r.head), consumer := LoadedWord(r.consumer.current, false))
    case LoadTail =>
      && r.consumer.LoadedWord? && !r.consumer.clear
      && r' == r.(consumer := if r.consumer.current == r.tail then Away else SeenTail(r.consumer.current))
    case LoadCell =>
      && r.consumer.SeenTail? && r.consumer.current < |r.cells|
      && r' == r.(consumer := LoadedCell(r.cells[r.consumer.current], r.consumer.current))
    case StoreHead =>
      && r.consumer.LoadedCell?
      && r' == r.(head := Next(r.consumer.current, |r.cells|), consumer := Away,
                  popped := r.popped + [r.consumer.message])
    case EnterSleep => r' == r.(head := Asleep(r.head))
  }

  ghost predicate Steps<T(!new)>(r: Ring<T>, r': Ring<T>) {
    exists step :: NextStep(r, r', step)
  }

  ghost predicate IsRun<T(!new)>(run: seq<Ring<T>>) {
    && run != []
    && if |run| == 1 then Init(run[0])
       else IsRun(run[..|run| - 1]) && Steps(run[|run| - 2], run[|run| - 1])
  }

  // ------------------------------------------------------------------------
  // Slots

  // The cell of the k-th message.
  function Slot(k: nat, size: nat): nat {
    if k == 0 then 0 else Next(Slot(k - 1, size), size)
  }

  lemma {:induction false} SlotFrom(k: nat, d: nat, size: nat)
    requires size >= 1 && d < size
    ensures Slot(k, size) < size
    ensures Slot(k + d, size) == if Slot(k, size) + d < size then Slot(k, size) + d else Slot(k, size) + d - size
    decreases k, d
  {
    if d > 0 {
      SlotFrom(k, d - 1, size);
    } else if k > 0 {
      SlotFrom(k - 1, 0, size);
    }
  }

  // Messages less than a round apart have different cells.
  lemma {:induction false} SlotsDiffer(j: nat, k: nat, size: nat)
    requires j < k < j + size
    ensures Slot(j, size) != Slot(k, size) && Slot(j, size) < size
  {
    SlotFrom(j, k - j, size);
  }

  // ------------------------------------------------------------------------
  // Invariant

  // The unread messages are in their cells.
  ghost predicate Holds<T>(cells: seq<T>, pushed: seq<T>, read: nat) {
    forall k: nat :: read <= k < |pushed| ==> Slot(k, |cells|) < |cells| && cells[Slot(k, |cells|)] == pushed[k]
  }

  ghost predicate ProducerRight<T>(p: Producer<T>, cells: seq<T>, written: nat, read: nat) {
    var size := |cells|;
    match p
    case Outside => true
    case LoadedTail(_, current, next) => current == Slot(written, size) && next == Slot(written + 1, size)
    case LoadedHead(_, current, next, head) =>
      && current == Slot(written, size) && next == Slot(written + 1, size)
      && exists seen: nat :: SeenHead(seen, head, size, written, read)
    case StoredCell(m, next) =>
      && next == Slot(written + 1, size) && written + 1 < read + size
      && Slot(written, size) < size && cells[Slot(written, size)] == m
  }

  // The head a producer has loaded is one the consumer has stored.
  ghost predicate SeenHead(seen: nat, head: nat, size: nat, written: nat, read: nat) {
    seen <= read && head == Slot(seen, size) && written < seen + size
  }

  ghost predicate ConsumerRight<T>(c: Consumer<T>, size: nat, pushed: seq<T>, read: nat) {
    match c
    case Away => true
    case LoadedWord(current, _) => current == Slot(read, size)
    case SeenTail(current) => current == Slot(read, size) && read < |pushed|
    case LoadedCell(m, current) => current == Slot(read, size) && read < |pushed| && m == pushed[read]
  }

  ghost predicate Inv<T>(r: Ring<T>) {
    var size, written, read := |r.cells|, |r.pushed|, |r.popped|;
    && 2 <= size < SLEEP_MASK
    && read <= written < read + size
    && r.popped == r.pushed[..read]
    && r.tail == Slot(written, size) && Awake(r.head) == Slot(read, size)
    && Holds(r.cells, r.pushed, read)
    && ProducerRight(r.producer, r.cells, written, read)
    && ConsumerRight(r.consumer, size, r.pushed, read)
  }

  lemma {:induction false} LoadHeadInv<T>(r: Ring<T>, r': Ring<T>)
    requires Inv(r) && NextStep(r, r', LoadHead)
    ensures Inv(r')
  {
    assert SeenHead(|r.popped|, Awake(r.head), |r.cells|, |r.pushed|, |r.popped|);
  }

  /** The cell a push writes holds no unread message. */
  lemma {:induction false} StoreCellFree<T>(r: Ring<T>, r': Ring<T>)
    requires Inv(r) && NextStep(r, r', StoreCell)
    ensures |r.pushed| + 1 < |r.popped| + |r.cells|
    ensures forall k: nat :: |r.popped| <= k < |r.pushed| ==> Slot(k, |r.cells|) != r.producer.current
  {
    var size, written, read := |r.cells|, |r.pushed|, |r.popped|;
    var seen: nat :| SeenHead(seen, r.producer.head, size, written, read);
    if written + 1 == seen + size {
      SlotFrom(seen, size - 1, size);
    }
    forall k: nat | read <= k < written
      ensures Slot(k, size) != Slot(written, size)
    {
      SlotsDiffer(k, written, size);
    }
  }

  lemma {:induction false} StoreCellInv<T>(r: Ring<T>, r': Ring<T>)
    requires Inv(r) && NextStep(r, r', StoreCell)
    ensures Inv(r')
  {
    StoreCellFree(r, r');
    SlotFrom(|r.pushed|, 0, |r.cells|);
  }

  lemma {:induction false} StoreTailInv<T>(r: Ring<T>, r': Ring<T>)
    requires Inv(r) && NextStep(r, r', StoreTail)
    ensures Inv(r')
  {
    assert r'.pushed[..|r'.popped|] == r.pushed[..|r.popped|];
  }

  lemma {:induction false} StoreHeadInv<T>(r: Ring<T>, r': Ring<T>)
    requires Inv(r) && NextStep(r, r', StoreHead)
    ensures Inv(r')
  {
    var size, read := |r.cells|, |r.popped|;
    SlotFrom(read, 0, size);
    AwakeSlot(read + 1, size);
    assert r.pushed[..read + 1] == r.pushed[..read] + [r.pushed[read]];
    MoreRead(r.producer, r.cells, |r.pushed|, read);
  }

  lemma {:induction false} AwakeSlot(k: nat, size: nat)
    requires 1 <= size < SLEEP_MASK
    ensures Awake(Slot(k, size)) == Slot(k, size)
  {
    SlotFrom(k, 0, size);
  }

  lemma {:induction false} MoreRead<T>(p: Producer<T>, cells: seq<T>, written: nat, read: nat)
    requires ProducerRight(p, cells, written, read)
    ensures ProducerRight(p, cells, written, read + 1)
  {
    if p.LoadedHead? {
      var seen: nat :| SeenHead(seen, p.head, |cells|, written, read);
      assert SeenHead(seen, p.head, |cells|, written, read + 1);
    }
  }

  lemma {:induction false} ConsumerStepInv<T>(r: Ring<T>, r': Ring<T>, step: Step<T>)
    requires Inv(r) && NextStep(r, r', step) && (step.PopStart? || step.ClearSleep? || step.LoadTail? || step.LoadCell?)
    ensures Inv(r')
  {
  }

  lemma {:induction false} StepInv<T>(r: Ring<T>, r': Ring<T>, step: Step<T>)
    requires Inv(r) && NextStep(r, r', step)
    ensures Inv(r')
  {
    match step
    case PushStart(m) =>
    case LoadHead => LoadHeadInv(r, r');
    case StoreCell => StoreCellInv(r, r');
    case Full =>
    case StoreTail => StoreTailInv(r, r');
    case StoreHead => StoreHeadInv(r, r');
    case EnterSleep =>
    case _ => ConsumerStepInv(r, r', step);
  }

  lemma {:induction false} RunInv<T(!new)>(run: seq<Ring<T>>)
    requires IsRun(run)
    ensures Inv(run[|run| - 1])
  {
    if |run| > 1 {
      RunInv(run[..|run| - 1]);
      var step :| NextStep(run[|run| - 2], run[|run| - 1], step);
      StepInv(run[|run| - 2], run[|run| - 1], step);
    }
  }

  /** Over every interleaving: what has been popped is a prefix of what has been pushed, at most
      size - 1 messages are held, and each of them is still in its cell. */
  lemma {:induction false} RingSafe<T(!new)>(run: seq<Ring<T>>)
    requires IsRun(run)
    ensures var r := run[|run| - 1];
            && r.popped <= r.pushed
            && |r.pushed| - |r.popped| <= |r.cells| - 1
            && forall k: nat :: |r.popped| <= k < |r.pushed| ==>
                 Slot(k, |r.cells|) < |r.cells| && r.cells[Slot(k, |r.cells|)] == r.pushed[k]
  {
    RunInv(run);
  }

  // ------------------------------------------------------------------------
  // Calls that fail

  ghost function Held<T>(r: Ring<T>): int {
    |r.pushed| - |r.popped|
  }

  // Two positions less than a round apart that share a cell are the same.
  lemma {:induction false} SameSlot(j: nat, k: nat, size: nat)
    requires size >= 1 && j <= k <= j + size
    ensures Slot(j, size) == Slot(k, size) <==> k == j || k == j + size
  {
    if j < k < j + size {
      SlotsDiffer(j, k, size);
    } else if k == j + size {
      SlotFrom(j, size - 1, size);
    }
  }

  /** Pop finds the ring empty, when it loads the tail, if and only if nothing is held then. */
  lemma {:induction false} EmptyIff<T>(r: Ring<T>, r': Ring<T>)
    requires Inv(r) && NextStep(r, r', LoadTail)
    ensures r'.consumer.Away? <==> Held(r) == 0
  {
    SameSlot(|r.popped|, |r.pushed|, |r.cells|);
  }

  // The head loaded is the one of a full ring if and only if the ring is full then.
  lemma {:induction false} LoadFullIff<T>(r: Ring<T>, r': Ring<T>)
    requires Inv(r) && NextStep(r, r', LoadHead)
    ensures r'.producer.next == r'.producer.head <==> Held(r) == |r.cells| - 1
  {
    SameSlot(|r.popped|, |r.pushed| + 1, |r.cells|);
  }

  // Where the push under way has loaded the head.
  lemma {:induction false} HeadStays<T(!new)>(r: Ring<T>, r': Ring<T>)
    requires Steps(r, r') && r'.producer.LoadedHead? && !NextStep(r, r', LoadHead)
    ensures r.producer == r'.producer
  {
    var step :| NextStep(r, r', step);
  }

  lemma {:induction false} HeadWasLoaded<T(!new)>(run: seq<Ring<T>>) returns (i: nat)
    requires IsRun(run) && run[|run| - 1].producer.LoadedHead?
    ensures i + 1 < |run| && IsRun(run[..i + 1]) && NextStep(run[i], run[i + 1], LoadHead)
    ensures run[i + 1].producer == run[|run| - 1].producer
  {
    var n := |run| - 2;
    var front := run[..n + 1];
    if NextStep(run[n], run[n + 1], LoadHead) {
      i := n;
    } else {
      HeadStays(run[n], run[n + 1]);
      i := HeadWasLoaded(front);
      assert front[..i + 1] == run[..i + 1];
    }
  }

  /** Push reports a full ring only if size - 1 messages were held when it loaded the head, and whenever
      they were it does: in every interleaving the push under way will find the ring full if and only if
      it was full then. */
  lemma {:induction false} FullIff<T(!new)>(run: seq<Ring<T>>) returns (i: nat)
    requires IsRun(run) && run[|run| - 1].producer.LoadedHead?
    ensures i + 1 < |run| && NextStep(run[i], run[i + 1], LoadHead) && run[i + 1].producer == run[|run| - 1].producer
    ensures var r := run[|run| - 1];
            r.producer.next == r.producer.head <==> Held(run[i]) == |run[i].cells| - 1
  {
    i := HeadWasLoaded(run);
    var now := run[..i + 1];
    assert now[|now| - 1] == run[i];
    RunInv(now);
    LoadFullIff(run[i], run[i + 1]);
  }
}
