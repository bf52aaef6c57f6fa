/** The circular FIFO for one producer and one consumer, one shared access at a time: the producer owns
    tail, the consumer head, and one slot of the ring always stays free. */
module CircularFifo {
  import opened PowerOfTwo
  import opened Ring

  type Value = int

  datatype ProducerPc =
    | Out
    | Test(x: Value)      // increment( tail ) != head
    | Fill(x: Value)      // array[tail] = item
    | StoreTail(x: Value) // tail = nextTail
    | Pushed(ok: bool)

  datatype ConsumerPc =
    | Out
    | Test                // head == tail
    | Load                // item = array[head]
    | StoreHead(x: Value) // head = increment( head )
    | Popped(ok: bool, x: Value)

  /** pushed and popped: the values made available by moving tail and given back by moving head. */
  datatype State = State(slots: seq<Value>, head: nat, tail: nat, producer: ProducerPc, consumer: ConsumerPc,
                         pushed: seq<Value>, popped: seq<Value>)

  datatype Event = Push(x: Value) | ProducerStep | Pop | ConsumerStep

  function Increment(i: nat, n: nat): nat
    requires n > 0
  {
    NextSlot(i, n);
    DivModBounds(i + 1, n);
    (i + 1) % n
  }

  predicate Enabled(n: nat, s: State, e: Event) {
    match e
    case Push(_) => s.producer.Out?
    case ProducerStep => !s.producer.Out? && s.tail < |s.slots| == n
    case Pop => s.consumer.Out?
    case ConsumerStep => !s.consumer.Out? && s.head < |s.slots| == n
  }

  function ProducerMoves(s: State): State
    requires s.tail < |s.slots|
  {
    match s.producer
    case Out => s
    case Test(x) => s.(producer := if Increment(s.tail, |s.slots|) != s.head then Fill(x) else Pushed(false))
    case Fill(x) => s.(slots := s.slots[s.tail := x], producer := StoreTail(x))
    case StoreTail(x) => s.(tail := Increment(s.tail, |s.slots|), pushed := s.pushed + [x], producer := Pushed(true))
    case Pushed(_) => s.(producer := ProducerPc.Out)
  }

  function ConsumerMoves(s: State): State
    requires s.head < |s.slots|
  {
    match s.consumer
    case Out => s
    case Test => s.(consumer := if s.head == s.tail then Popped(false, 0) else Load)
    case Load => s.(consumer := StoreHead(s.slots[s.head]))
    case StoreHead(x) => s.(head := Increment(s.head, |s.slots|), popped := s.popped + [x], consumer := Popped(true, x))
    case Popped(_, _) => s.(consumer := ConsumerPc.Out)
  }

  function Exec(n: nat, s: State, e: Event): State
    requires Enabled(n, s, e)
  {
    match e
    case Push(x) => s.(producer := ProducerPc.Test(x))
    case ProducerStep => ProducerMoves(s)
    case Pop => s.(consumer := ConsumerPc.Test)
    case ConsumerStep => ConsumerMoves(s)
  }

  predicate Init(n: nat, s: State) {
    && |s.slots| == n && s.head == 0 && s.tail == 0
    && s.producer.Out? && s.consumer.Out? && s.pushed == [] && s.popped == []
  }

  // ---------------------------------------------------------------- the invariant

  ghost predicate Inv(n: nat, s: State) {
    var r, w := |s.popped|, |s.pushed|;
    && |s.slots| == n > 0 && r <= w < r + n
    && s.tail == w % n && s.head == r % n
    && (forall i: nat {:trigger i % n} | r <= i < w :: s.slots[i % n] == s.pushed[i])
    && s.popped == s.pushed[..r]
    && (s.producer.Fill? || s.producer.StoreTail? ==> w + 1 < r + n)
    && (s.producer.StoreTail? ==> s.slots[w % n] == s.producer.x)
    && (s.consumer.Load? || s.consumer.StoreHead? ==> r < w)
    && (s.consumer.StoreHead? ==> s.consumer.x == s.pushed[r])
  }

  lemma InitInv(n: nat, s: State)
    requires n > 0 && Init(n, s)
    ensures Inv(n, s)
  {
  }

  /** The producer's test tells whether n - 1 values are inside. */
  lemma TestFull(n: nat, s: State)
    requires Inv(n, s)
    ensures s.tail < n && (Increment(s.tail, n) == s.head <==> |s.pushed| + 1 == |s.popped| + n)
  {
    var r, w := |s.popped|, |s.pushed|;
    NextSlot(w, n);
    if w + 1 == r + n {
      SameSlotAfterRound(r, n);
    } else {
      if r < w + 1 {
        SlotsDiffer(r, w + 1, n);
      }
    }
  }

  /** The consumer's test tells whether the queue is empty. */
  lemma TestEmpty(n: nat, s: State)
    requires Inv(n, s)
    ensures s.head < n && (s.head == s.tail <==> |s.pushed| == |s.popped|)
  {
    var r, w := |s.popped|, |s.pushed|;
    NextSlot(r, n);
    if r < w {
      SlotsDiffer(r, w, n);
    }
  }

  /** The slot being filled is none of those in use. */
  lemma FillKeeps(n: nat, s: State)
    requires Inv(n, s) && s.producer.Fill? && s.tail < n
    ensures Inv(n, ProducerMoves(s))
  {
    var r, w := |s.popped|, |s.pushed|;
    forall i: nat | r <= i < w ensures i % n != w % n {
      SlotsDiffer(i, w, n);
    }
  }

  lemma ProducerKeeps(n: nat, s: State)
    requires Inv(n, s) && !s.producer.Out? && s.tail < n
    ensures Inv(n, ProducerMoves(s))
  {
    match s.producer
    case Test(_) => TestFull(n, s);
    case Fill(_) => FillKeeps(n, s);
    case StoreTail(_) => NextSlot(|s.pushed|, n);
    case _ =>
  }

  lemma ConsumerKeeps(n: nat, s: State)
    requires Inv(n, s) && !s.consumer.Out? && s.head < n
    ensures Inv(n, ConsumerMoves(s))
  {
    match s.consumer
    case Test => TestEmpty(n, s);
    case Load => assert s.slots[|s.popped| % n] == s.pushed[|s.popped|];
    case StoreHead(_) => NextSlot(|s.popped|, n);
    case _ =>
  }

  lemma StepKeepsInv(n: nat, s: State, e: Event)
    requires Inv(n, s) && Enabled(n, s, e)
    ensures Inv(n, Exec(n, s, e))
  {
    match e
    case ProducerStep => ProducerKeeps(n, s);
    case ConsumerStep => ConsumerKeeps(n, s);
    case _ =>
  }

  // ---------------------------------------------------------------- runs

  ghost predicate Run(n: nat, run: seq<State>, events: seq<Event>) {
    && n > 0 && |run| == |events| + 1 && Init(n, run[0])
    && forall i {:trigger events[i]} | 0 <= i < |events| ::
         Enabled(n, run[i], events[i]) && run[i + 1] == Exec(n, run[i], events[i])
  }

  lemma {:induction false} RunKeepsInv(n: nat, run: seq<State>, events: seq<Event>, j: nat)
    requires Run(n, run, events) && j < |run|
    ensures Inv(n, run[j])
  {
    if j == 0 {
      InitInv(n, run[0]);
    } else {
      RunKeepsInv(n, run, events, j - 1);
      assert run[j - 1 + 1] == Exec(n, run[j - 1], events[j - 1]);
      StepKeepsInv(n, run[j - 1], events[j - 1]);
    }
  }

  /** In every interleaving the values come out in the order in which they went in, and fewer than n are inside. */
  lemma RefinesFifo(n: nat, run: seq<State>, events: seq<Event>, j: nat)
    requires Run(n, run, events) && j < |run|
    ensures run[j].popped <= run[j].pushed && |run[j].pushed| < |run[j].popped| + n
  {
    RunKeepsInv(n, run, events, j);
  }

  /** Each end decides as a queue of n - 1 places would at the instant of its test, and the value that pop returns
      is the oldest one. */
  lemma AnswersCorrect(n: nat, run: seq<State>, events: seq<Event>, j: nat)
    requires Run(n, run, events) && j < |events|
    ensures events[j] == ProducerStep && run[j].producer.Test? ==>
              (run[j + 1].producer == Pushed(false) <==> |run[j].pushed| == |run[j].popped| + n - 1)
    ensures events[j] == ConsumerStep && run[j].consumer.Test? ==>
              (run[j + 1].consumer == Popped(false, 0) <==> run[j].pushed == run[j].popped)
    ensures events[j] == ConsumerStep && run[j].consumer.StoreHead? ==>
              && |run[j].popped| < |run[j].pushed|
              && run[j + 1].consumer == Popped(true, run[j].pushed[|run[j].popped|])
  {
    RunKeepsInv(n, run, events, j);
    var s := run[j];
    assert run[j + 1] == Exec(n, s, events[j]);
    TestFull(n, s);
    TestEmpty(n, s);
  }

  // ---------------------------------------------------------------- whole calls

  /** The consumer is inside the call of pop that event i began. */
  ghost predicate PopCall(run: seq<State>, events: seq<Event>, i: nat, j: nat) {
    && i < j < |run| == |events| + 1 && events[i] == Pop
    && forall l {:trigger run[l]} | i < l <= j :: !run[l].consumer.Out?
  }

  /** At instant l the consumer's test finds the queue empty, or not. */
  ghost predicate TestsEmpty(run: seq<State>, events: seq<Event>, l: nat, empty: bool) {
    && l < |run| && l < |events| && events[l] == ConsumerStep && run[l].consumer.Test?
    && (empty <==> run[l].pushed == run[l].popped)
  }

  /** What the consumer has done of its call, when it began with base taken out, and its test was at l. */
  ghost predicate Popping(run: seq<State>, events: seq<Event>, l: nat, s: State, base: seq<Value>) {
    match s.consumer
    case Out => false
    case Test => s.popped == base
    case Load => s.popped == base && TestsEmpty(run, events, l, false)
    case StoreHead(x) => s.popped == base && TestsEmpty(run, events, l, false)
    case Popped(ok, x) => s.popped == (if ok then base + [x] else base) && TestsEmpty(run, events, l, !ok)
  }

  lemma PopStep(n: nat, s: State, e: Event)
    requires Enabled(n, s, e) && !s.consumer.Out? && !Exec(n, s, e).consumer.Out?
    ensures e != Pop
    ensures e != ConsumerStep ==> Exec(n, s, e).consumer == s.consumer && Exec(n, s, e).popped == s.popped
    ensures e == ConsumerStep ==> !s.consumer.Popped?
  {
  }

  lemma {:induction false} PopSoFar(n: nat, run: seq<State>, events: seq<Event>, i: nat, j: nat) returns (l: nat)
    requires Run(n, run, events) && PopCall(run, events, i, j)
    ensures i < l <= j && (!run[j].consumer.Test? ==> l < j)
    ensures Popping(run, events, l, run[j], run[i].popped)
  {
    assert run[j - 1 + 1] == Exec(n, run[j - 1], events[j - 1]);
    l := j;
    if i + 1 < j {
      assert !run[j - 1].consumer.Out?;
      PopStep(n, run[j - 1], events[j - 1]);
      l := PopSoFar(n, run, events, i, j - 1);
      if events[j - 1] == ConsumerStep && run[j - 1].consumer.Test? {
        AnswersCorrect(n, run, events, j - 1);
        l := j - 1;
      }
    }
  }

  /** A pop that succeeds takes exactly the value out that it returns, and at an instant l within the call there was
      one; one that fails takes nothing out, and at l the queue was empty. */
  lemma PopAnswers(n: nat, run: seq<State>, events: seq<Event>, i: nat, j: nat) returns (l: nat)
    requires Run(n, run, events) && PopCall(run, events, i, j) && run[j].consumer.Popped?
    ensures i < l < j && TestsEmpty(run, events, l, !run[j].consumer.ok)
    ensures run[j].popped == if run[j].consumer.ok then run[i].popped + [run[j].consumer.x] else run[i].popped
  {
    l := PopSoFar(n, run, events, i, j);
  }

  /** The producer is inside the call of push that event i began. */
  ghost predicate PushCall(run: seq<State>, events: seq<Event>, i: nat, j: nat) {
    && i < j < |run| == |events| + 1 && events[i].Push?
    && forall l {:trigger run[l]} | i < l <= j :: !run[l].producer.Out?
  }

  /** At instant l the producer's test finds n - 1 values inside, or fewer. */
  ghost predicate TestsFull(n: nat, run: seq<State>, events: seq<Event>, l: nat, full: bool) {
    && l < |run| && l < |events| && events[l] == ProducerStep && run[l].producer.Test?
    && (full <==> |run[l].pushed| == |run[l].popped| + n - 1)
  }

  ghost predicate Pushing(n: nat, run: seq<State>, events: seq<Event>, l: nat, s: State, base: seq<Value>, x: Value) {
    match s.producer
    case Out => false
    case Test(y) => s.pushed == base && y == x
    case Fill(y) => s.pushed == base && y == x && TestsFull(n, run, events, l, false)
    case StoreTail(y) => s.pushed == base && y == x && TestsFull(n, run, events, l, false)
    case Pushed(ok) => s.pushed == (if ok then base + [x] else base) && TestsFull(n, run, events, l, !ok)
  }

  lemma PushStep(n: nat, s: State, e: Event)
    requires Enabled(n, s, e) && !s.producer.Out? && !Exec(n, s, e).producer.Out?
    ensures !e.Push?
    ensures e != ProducerStep ==> Exec(n, s, e).producer == s.producer && Exec(n, s, e).pushed == s.pushed
    ensures e == ProducerStep ==> !s.producer.Pushed?
  {
  }

  lemma {:induction false} PushSoFar(n: nat, run: seq<State>, events: seq<Event>, i: nat, j: nat) returns (l: nat)
    requires Run(n, run, events) && PushCall(run, events, i, j)
    ensures i < l <= j && (!run[j].producer.Test? ==> l < j)
    ensures Pushing(n, run, events, l, run[j], run[i].pushed, events[i].x)
  {
    assert run[j - 1 + 1] == Exec(n, run[j - 1], events[j - 1]);
    l := j;
    if i + 1 < j {
      assert !run[j - 1].producer.Out?;
      PushStep(n, run[j - 1], events[j - 1]);
      l := PushSoFar(n, run, events, i, j - 1);
      if events[j - 1] == ProducerStep && run[j - 1].producer.Test? {
        AnswersCorrect(n, run, events, j - 1);
        l := j - 1;
      }
    }
  }

  /** A push of x that succeeds puts in exactly x, and at an instant l within the call there was room; one that fails
      puts in nothing, and at l the queue was full. */
  lemma PushAnswers(n: nat, run: seq<State>, events: seq<Event>, i: nat, j: nat) returns (l: nat)
    requires Run(n, run, events) && PushCall(run, events, i, j) && run[j].producer.Pushed?
    ensures i < l < j && TestsFull(n, run, events, l, !run[j].producer.ok)
    ensures run[j].pushed == if run[j].producer.ok then run[i].pushed + [events[i].x] else run[i].pushed
  {
    l := PushSoFar(n, run, events, i, j);
  }

  /** How many of its own steps an end has still to make. */
  function StepsLeft(s: State): (nat, nat) {
    (match s.producer case Out => 0 case Test(_) => 4 case Fill(_) => 3 case StoreTail(_) => 2 case Pushed(_) => 1,
     match s.consumer case Out => 0 case Test => 4 case Load => 3 case StoreHead(_) => 2 case Popped(_, _) => 1)
  }

  /** Both calls end after at most four steps of their own, whatever the other end does. */
  lemma CallsEnd(n: nat, s: State, e: Event)
    requires Enabled(n, s, e)
    ensures var s' := Exec(n, s, e);
            && (e == ProducerStep ==> StepsLeft(s').0 < StepsLeft(s).0 && StepsLeft(s').1 == StepsLeft(s).1)
            && (e == ConsumerStep ==> StepsLeft(s').1 < StepsLeft(s).1 && StepsLeft(s').0 == StepsLeft(s).0)
  {
  }
}
