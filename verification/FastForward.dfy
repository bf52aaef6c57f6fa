/** The FastForward queue for one producer and one consumer, one shared access at a time. The two ends
    share no index: an occupied slot is one that does not hold the sentinel. */
module FastForward {
  import opened PowerOfTwo
  import opened Ring

  type Value = int

  datatype ProducerPc =
    | Out
    | Test(x: Value)   // is buffer[head] the sentinel?
    | Fill(x: Value)   // buffer[head] = data
    | MoveHead         // head = next( head )
    | Enqueued(ok: bool)

  datatype ConsumerPc =
    | Out
    | Load             // data = buffer[tail]
    | Empty(x: Value)  // buffer[tail] = SENTINEL
    | MoveTail(x: Value)
    | Dequeued(ok: bool, x: Value)

  /** pushed and popped: the values that were put into slots and taken out of them, in order. */
  datatype State = State(buffer: seq<Value>, head: nat, tail: nat, producer: ProducerPc, consumer: ConsumerPc,
                         pushed: seq<Value>, popped: seq<Value>)

  datatype Event = Enqueue(x: Value) | ProducerStep | Dequeue | ConsumerStep

  predicate Enabled(n: nat, s: State, e: Event) {
    match e
    case Enqueue(_) => s.producer.Out?
    case ProducerStep => !s.producer.Out? && s.head < |s.buffer| == n
    case Dequeue => s.consumer.Out?
    case ConsumerStep => !s.consumer.Out? && s.tail < |s.buffer| == n
  }

  function ProducerMoves(sentinel: Value, s: State): State
    requires s.head < |s.buffer|
  {
    match s.producer
    case Out => s
    case Test(x) => s.(producer := if s.buffer[s.head] == sentinel then Fill(x) else Enqueued(false))
    case Fill(x) => s.(buffer := s.buffer[s.head := x], pushed := s.pushed + [x], producer := MoveHead)
    case MoveHead => s.(head := (s.head + 1) % |s.buffer|, producer := Enqueued(true))
    case Enqueued(_) => s.(producer := ProducerPc.Out)
  }

  function ConsumerMoves(sentinel: Value, s: State): State
    requires s.tail < |s.buffer|
  {
    match s.consumer
    case Out => s
    case Load =>
      var x := s.buffer[s.tail];
      s.(consumer := if x == sentinel then Dequeued(false, x) else Empty(x))
    case Empty(x) => s.(buffer := s.buffer[s.tail := sentinel], popped := s.popped + [x], consumer := MoveTail(x))
    case MoveTail(x) => s.(tail := (s.tail + 1) % |s.buffer|, consumer := Dequeued(true, x))
    case Dequeued(_, _) => s.(consumer := ConsumerPc.Out)
  }

  function Exec(n: nat, sentinel: Value, s: State, e: Event): State
    requires Enabled(n, s, e)
  {
    match e
    case Enqueue(x) => s.(producer := Test(x))
    case ProducerStep => ProducerMoves(sentinel, s)
    case Dequeue => s.(consumer := Load)
    case ConsumerStep => ConsumerMoves(sentinel, s)
  }

  predicate Init(n: nat, sentinel: Value, s: State) {
    && |s.buffer| == n && (forall k | 0 <= k < n :: s.buffer[k] == sentinel)
    && s.head == 0 && s.tail == 0 && s.producer.Out? && s.consumer.Out? && s.pushed == [] && s.popped == []
  }

  // ---------------------------------------------------------------- the invariant

  /** The counter whose slot head stands for: it lags by one while the producer is about to move it. */
  function HeadAt(s: State): int {
    if s.producer.MoveHead? then |s.pushed| - 1 else |s.pushed|
  }

  function TailAt(s: State): int {
    if s.consumer.MoveTail? then |s.popped| - 1 else |s.popped|
  }

  /** The slots in use hold the values pushed and not yet popped; all others hold the sentinel. */
  ghost predicate SlotsOk(sentinel: Value, s: State) {
    var n, r, w := |s.buffer|, |s.popped|, |s.pushed|;
    && n > 0 && r <= w <= r + n
    && (forall i: nat {:trigger i % n} | r <= i < w :: s.buffer[i % n] == s.pushed[i])
    && (forall i: nat {:trigger i % n} | w <= i < r + n :: s.buffer[i % n] == sentinel)
  }

  ghost predicate Inv(n: nat, sentinel: Value, s: State) {
    && |s.buffer| == n
    && SlotsOk(sentinel, s)
    && s.popped == s.pushed[..|s.popped|]
    && HeadAt(s) >= 0 && TailAt(s) >= 0 && s.head == HeadAt(s) % n && s.tail == TailAt(s) % n
    && (s.producer.Fill? ==> |s.pushed| < |s.popped| + n)
    && (s.consumer.Empty? ==>
          |s.popped| < |s.pushed| && s.consumer.x == s.pushed[|s.popped|] && s.consumer.x != sentinel)
  }

  /** The oldest value inside is the sentinel, which looks like a free slot. */
  predicate Blocked(sentinel: Value, s: State) {
    |s.popped| < |s.pushed| && s.pushed[|s.popped|] == sentinel
  }

  /** All slots are taken, and the producer takes that one for free. */
  predicate Overruns(n: nat, sentinel: Value, s: State, e: Event) {
    e == ProducerStep && s.producer.Test? && |s.pushed| == |s.popped| + n && Blocked(sentinel, s)
  }

  lemma InitInv(n: nat, sentinel: Value, s: State)
    requires n > 0 && Init(n, sentinel, s)
    ensures Inv(n, sentinel, s)
  {
  }

  /** The slot at head is free, or all n slots are taken and it holds the oldest value. */
  lemma TestFull(n: nat, sentinel: Value, s: State)
    requires Inv(n, sentinel, s) && s.producer.Test?
    ensures s.head < n
    ensures |s.pushed| < |s.popped| + n ==> s.buffer[s.head] == sentinel
    ensures |s.pushed| == |s.popped| + n ==> s.head == |s.popped| % n && s.buffer[s.head] == s.pushed[|s.popped|]
  {
    var r, w := |s.popped|, |s.pushed|;
    if w == r + n {
      SameSlotAfterRound(r, n);
      assert s.buffer[r % n] == s.pushed[r];
    }
  }

  /** The slot at tail holds the oldest value, if there is one. */
  lemma LoadEmpty(n: nat, sentinel: Value, s: State)
    requires Inv(n, sentinel, s) && s.consumer.Load?
    ensures s.tail < n
    ensures |s.popped| == |s.pushed| ==> s.buffer[s.tail] == sentinel
    ensures |s.popped| < |s.pushed| ==> s.buffer[s.tail] == s.pushed[|s.popped|]
  {
    var r, w := |s.popped|, |s.pushed|;
    assert s.tail == r % n;
  }

  lemma TestKeeps(n: nat, sentinel: Value, s: State)
    requires Inv(n, sentinel, s) && s.producer.Test? && s.head < n && !Overruns(n, sentinel, s, ProducerStep)
    ensures Inv(n, sentinel, ProducerMoves(sentinel, s))
  {
    TestFull(n, sentinel, s);
    assert SlotsOk(sentinel, ProducerMoves(sentinel, s));
  }

  lemma MoveHeadKeeps(n: nat, sentinel: Value, s: State)
    requires Inv(n, sentinel, s) && s.producer.MoveHead? && s.head < n
    ensures Inv(n, sentinel, ProducerMoves(sentinel, s))
  {
    NextSlot(HeadAt(s), n);
    assert SlotsOk(sentinel, ProducerMoves(sentinel, s));
  }

  lemma FillKeeps(n: nat, sentinel: Value, s: State)
    requires Inv(n, sentinel, s) && s.producer.Fill? && s.head < n
    ensures Inv(n, sentinel, ProducerMoves(sentinel, s))
  {
    FillKeepsSlots(n, sentinel, s);
  }

  lemma FillKeepsSlots(n: nat, sentinel: Value, s: State)
    requires SlotsOk(sentinel, s) && s.producer.Fill? && n == |s.buffer|
    requires |s.pushed| < |s.popped| + n && s.head == |s.pushed| % n && s.head < n
    ensures SlotsOk(sentinel, ProducerMoves(sentinel, s))
  {
    var r, w := |s.popped|, |s.pushed|;
    forall i: nat | r <= i < r + n && i != w ensures i % n != w % n {
      if i < w {
        SlotsDiffer(i, w, n);
      } else {
        SlotsDiffer(w, i, n);
      }
    }
  }

  /** The slot that is emptied is the oldest one in use. */
  lemma EmptyKeepsSlots(n: nat, sentinel: Value, s: State)
    requires SlotsOk(sentinel, s) && s.consumer.Empty? && n == |s.buffer|
    requires |s.popped| < |s.pushed| && s.tail == |s.popped| % n && s.tail < n
    ensures SlotsOk(sentinel, ConsumerMoves(sentinel, s))
  {
    var r := |s.popped|;
    forall i: nat | r < i < r + n ensures i % n != r % n {
      SlotsDiffer(r, i, n);
    }
    SameSlotAfterRound(r, n);
  }

  lemma EmptyKeeps(n: nat, sentinel: Value, s: State)
    requires Inv(n, sentinel, s) && s.consumer.Empty? && s.tail < n
    ensures Inv(n, sentinel, ConsumerMoves(sentinel, s))
  {
    EmptyKeepsSlots(n, sentinel, s);
    var r := |s.popped|;
    assert s.pushed[..r + 1] == s.pushed[..r] + [s.pushed[r]];
  }

  lemma ProducerKeeps(n: nat, sentinel: Value, s: State)
    requires Inv(n, sentinel, s) && !s.producer.Out? && s.head < n && !Overruns(n, sentinel, s, ProducerStep)
    ensures Inv(n, sentinel, ProducerMoves(sentinel, s))
  {
    match s.producer
    case Test(_) => TestKeeps(n, sentinel, s);
    case Fill(_) => FillKeeps(n, sentinel, s);
    case MoveHead => MoveHeadKeeps(n, sentinel, s);
    case _ =>
  }

  lemma ConsumerKeeps(n: nat, sentinel: Value, s: State)
    requires Inv(n, sentinel, s) && !s.consumer.Out? && s.tail < n
    ensures Inv(n, sentinel, ConsumerMoves(sentinel, s))
  {
    match s.consumer
    case Load => LoadEmpty(n, sentinel, s);
    case Empty(_) => EmptyKeeps(n, sentinel, s);
    case MoveTail(_) => NextSlot(TailAt(s), n);
    case _ =>
  }

  lemma StepKeepsInv(n: nat, sentinel: Value, s: State, e: Event)
    requires Inv(n, sentinel, s) && Enabled(n, s, e) && !Overruns(n, sentinel, s, e)
    ensures Inv(n, sentinel, Exec(n, sentinel, s, e))
  {
    match e
    case ProducerStep => ProducerKeeps(n, sentinel, s);
    case ConsumerStep => ConsumerKeeps(n, sentinel, s);
    case _ =>
  }

  // ---------------------------------------------------------------- runs

  ghost predicate Run(n: nat, sentinel: Value, run: seq<State>, events: seq<Event>) {
    && n > 0 && |run| == |events| + 1 && Init(n, sentinel, run[0])
    && forall i {:trigger events[i]} | 0 <= i < |events| ::
         Enabled(n, run[i], events[i]) && run[i + 1] == Exec(n, sentinel, run[i], events[i])
  }

  ghost predicate NoOverrun(n: nat, sentinel: Value, run: seq<State>, events: seq<Event>) {
    forall i {:trigger events[i]} | 0 <= i < |events| && i < |run| :: !Overruns(n, sentinel, run[i], events[i])
  }

  lemma {:induction false} RunKeepsInv(n: nat, sentinel: Value, run: seq<State>, events: seq<Event>, j: nat)
    requires Run(n, sentinel, run, events) && NoOverrun(n, sentinel, run, events) && j < |run|
    ensures Inv(n, sentinel, run[j])
  {
    if j == 0 {
      InitInv(n, sentinel, run[0]);
    } else {
      RunKeepsInv(n, sentinel, run, events, j - 1);
      assert run[j - 1 + 1] == Exec(n, sentinel, run[j - 1], events[j - 1]);
      StepKeepsInv(n, sentinel, run[j - 1], events[j - 1]);
    }
  }

  /** In every interleaving without an overrun the values come out in the order in which they went in, and at most
      n are inside. */
  lemma RefinesFifo(n: nat, sentinel: Value, run: seq<State>, events: seq<Event>, j: nat)
    requires Run(n, sentinel, run, events) && NoOverrun(n, sentinel, run, events) && j < |run|
    ensures run[j].popped <= run[j].pushed && |run[j].pushed| <= |run[j].popped| + n
  {
    RunKeepsInv(n, sentinel, run, events, j);
  }

  /** Each end decides at the instant of its test: enqueue fails only when all n slots are taken; dequeue fails only
      when the queue is empty or its oldest value is the sentinel, and obtains the oldest value otherwise. */
  lemma AnswersCorrect(n: nat, sentinel: Value, run: seq<State>, events: seq<Event>, j: nat)
    requires Run(n, sentinel, run, events) && NoOverrun(n, sentinel, run, events) && j < |events|
    ensures events[j] == ProducerStep && run[j].producer.Test? ==>
              (run[j + 1].producer == Enqueued(false) <==> |run[j].pushed| == |run[j].popped| + n)
    ensures events[j] == ConsumerStep && run[j].consumer.Load? ==>
              if run[j].pushed == run[j].popped || Blocked(sentinel, run[j])
              then run[j + 1].consumer == Dequeued(false, sentinel)
              else |run[j].popped| < |run[j].pushed| && run[j + 1].consumer == Empty(run[j].pushed[|run[j].popped|])
  {
    RunKeepsInv(n, sentinel, run, events, j);
    var s := run[j];
    assert run[j + 1] == Exec(n, sentinel, s, events[j]);
    if events[j] == ProducerStep && s.producer.Test? {
      TestFull(n, sentinel, s);
    }
    if events[j] == ConsumerStep && s.consumer.Load? {
      LoadEmpty(n, sentinel, s);
      assert s.popped == s.pushed[..|s.popped|];
    }
  }

  // ---------------------------------------------------------------- values that are not the sentinel

  ghost predicate Clean(sentinel: Value, s: State) {
    sentinel !in s.pushed && (s.producer.Test? || s.producer.Fill? ==> s.producer.x != sentinel)
  }

  lemma StepKeepsClean(n: nat, sentinel: Value, s: State, e: Event)
    requires Clean(sentinel, s) && Enabled(n, s, e) && e != Enqueue(sentinel)
    ensures Clean(sentinel, Exec(n, sentinel, s, e))
  {
  }

  lemma {:induction false} RunKeepsClean(n: nat, sentinel: Value, run: seq<State>, events: seq<Event>, j: nat)
    requires Run(n, sentinel, run, events) && Enqueue(sentinel) !in events && j < |run|
    ensures Clean(sentinel, run[j])
  {
    if j > 0 {
      RunKeepsClean(n, sentinel, run, events, j - 1);
      assert run[j - 1 + 1] == Exec(n, sentinel, run[j - 1], events[j - 1]);
      StepKeepsClean(n, sentinel, run[j - 1], events[j - 1]);
    }
  }

  /** As long as the sentinel is never enqueued, no overrun happens and no value blocks: so the queue refines the
      bounded queue, and dequeue fails only when it is empty. */
  lemma CleanRuns(n: nat, sentinel: Value, run: seq<State>, events: seq<Event>)
    requires Run(n, sentinel, run, events) && Enqueue(sentinel) !in events
    ensures NoOverrun(n, sentinel, run, events)
    ensures forall j | 0 <= j < |run| :: !Blocked(sentinel, run[j])
  {
    forall j | 0 <= j < |run| ensures !Blocked(sentinel, run[j]) {
      RunKeepsClean(n, sentinel, run, events, j);
    }
  }

  // ---------------------------------------------------------------- the sentinel as a value

  lemma BlockedStays(n: nat, sentinel: Value, s: State, e: Event)
    requires Inv(n, sentinel, s) && Blocked(sentinel, s) && Enabled(n, s, e)
    ensures var s' := Exec(n, sentinel, s, e); Blocked(sentinel, s') && s'.popped == s.popped
  {
  }

  /** An accepted sentinel is lost, and with it all that comes after it: once it is the oldest value, nothing comes out
      any more, and every dequeue says that the queue is empty, whatever lies behind. */
  lemma {:induction false} SentinelIsLost(n: nat, sentinel: Value, run: seq<State>, events: seq<Event>, i: nat, j: nat)
    requires Run(n, sentinel, run, events) && NoOverrun(n, sentinel, run, events) && i <= j < |run|
    requires Blocked(sentinel, run[i])
    ensures Blocked(sentinel, run[j]) && run[j].popped == run[i].popped
    ensures j < |events| && events[j] == ConsumerStep && run[j].consumer.Load? ==>
              run[j + 1].consumer == Dequeued(false, sentinel)
  {
    if i < j {
      SentinelIsLost(n, sentinel, run, events, i, j - 1);
      RunKeepsInv(n, sentinel, run, events, j - 1);
      assert run[j - 1 + 1] == Exec(n, sentinel, run[j - 1], events[j - 1]);
      BlockedStays(n, sentinel, run[j - 1], events[j - 1]);
    }
    if j < |events| {
      AnswersCorrect(n, sentinel, run, events, j);
    }
  }

  /** The states that the events lead to from s. */
  ghost predicate Leads(n: nat, sentinel: Value, s: State, events: seq<Event>, s': State)
    decreases |events|
  {
    if events == [] then s' == s
    else Enabled(n, s, events[0]) && Leads(n, sentinel, Exec(n, sentinel, s, events[0]), events[1..], s')
  }

  lemma LeadsBefore(n: nat, sentinel: Value, s: State, e: Event, events: seq<Event>, s': State)
    requires Enabled(n, s, e) && Leads(n, sentinel, Exec(n, sentinel, s, e), events, s')
    ensures Leads(n, sentinel, s, [e] + events, s')
  {
    assert ([e] + events)[1..] == events;
  }

  /** Unless all slots are taken the sentinel is accepted like any other value; in an empty queue it then blocks. */
  lemma SentinelAccepted(n: nat, sentinel: Value, s: State) returns (s': State)
    requires Inv(n, sentinel, s) && s.producer.Out? && |s.pushed| < |s.popped| + n
    ensures Leads(n, sentinel, s, [Enqueue(sentinel), ProducerStep, ProducerStep, ProducerStep], s')
    ensures s'.producer == Enqueued(true) && s'.pushed == s.pushed + [sentinel] && s'.popped == s.popped
    ensures s.pushed == s.popped ==> Blocked(sentinel, s')
  {
    NextSlot(s.head, n);
    assert s.buffer[|s.pushed| % n] == sentinel;
    var s0 := Exec(n, sentinel, s, Enqueue(sentinel));
    var s1 := Exec(n, sentinel, s0, ProducerStep);
    var s2 := Exec(n, sentinel, s1, ProducerStep);
    s' := Exec(n, sentinel, s2, ProducerStep);
    LeadsBefore(n, sentinel, s2, ProducerStep, [], s');
    LeadsBefore(n, sentinel, s1, ProducerStep, [ProducerStep], s');
    LeadsBefore(n, sentinel, s0, ProducerStep, [ProducerStep, ProducerStep], s');
    LeadsBefore(n, sentinel, s, Enqueue(sentinel), [ProducerStep, ProducerStep, ProducerStep], s');
  }

  /** The producer overwrites the sentinel in a full queue. */
  lemma OverrunFills(n: nat, sentinel: Value, s: State)
    requires Inv(n, sentinel, s) && Overruns(n, sentinel, s, ProducerStep)
    ensures var x := s.producer.x;
            Leads(n, sentinel, s, [ProducerStep, ProducerStep],
                  s.(buffer := s.buffer[s.head := x], pushed := s.pushed + [x], producer := MoveHead))
    ensures s.head == |s.popped| % n
  {
    var x := s.producer.x;
    TestFull(n, sentinel, s);
    var s1 := Exec(n, sentinel, s, ProducerStep);
    var s2 := s.(buffer := s.buffer[s.head := x], pushed := s.pushed + [x], producer := MoveHead);
    LeadsBefore(n, sentinel, s1, ProducerStep, [], s2);
    LeadsBefore(n, sentinel, s, ProducerStep, [ProducerStep], s2);
  }

  lemma DequeueLeads(n: nat, sentinel: Value, s: State, x: Value)
    requires s.consumer.Out? && s.tail < |s.buffer| == n && s.buffer[s.tail] == x != sentinel
    ensures Leads(n, sentinel, s, [Dequeue, ConsumerStep, ConsumerStep],
                  s.(buffer := s.buffer[s.tail := sentinel], popped := s.popped + [x], consumer := MoveTail(x)))
  {
    var s1 := Exec(n, sentinel, s, Dequeue);
    var s2 := Exec(n, sentinel, s1, ConsumerStep);
    var s3 := Exec(n, sentinel, s2, ConsumerStep);
    LeadsBefore(n, sentinel, s2, ConsumerStep, [], s3);
    LeadsBefore(n, sentinel, s1, ConsumerStep, [ConsumerStep], s3);
    LeadsBefore(n, sentinel, s, Dequeue, [ConsumerStep, ConsumerStep], s3);
  }

  lemma {:induction false} LeadsOn(n: nat, sentinel: Value, s: State, events: seq<Event>, s': State,
                                   events': seq<Event>, s'': State)
    requires Leads(n, sentinel, s, events, s') && Leads(n, sentinel, s', events', s'')
    ensures Leads(n, sentinel, s, events + events', s'')
    decreases |events|
  {
    if events == [] {
      assert events + events' == events';
    } else {
      LeadsOn(n, sentinel, Exec(n, sentinel, s, events[0]), events[1..], s', events', s'');
      assert (events + events')[1..] == events[1..] + events';
    }
  }

  /** The condition is exact: after any overrun by another value than the sentinel, the next dequeue obtains that value,
      which was enqueued last, before the n that went in before it. */
  lemma OverrunOvertakes(n: nat, sentinel: Value, s: State) returns (s': State)
    requires Inv(n, sentinel, s) && Overruns(n, sentinel, s, ProducerStep) && s.consumer.Out?
    requires s.producer.x != sentinel
    ensures Leads(n, sentinel, s, [ProducerStep, ProducerStep] + [Dequeue, ConsumerStep, ConsumerStep], s')
    ensures s'.pushed == s.pushed + [s.producer.x] && s'.popped == s.popped + [s.producer.x]
    ensures !(s'.popped <= s'.pushed)
  {
    var x := s.producer.x;
    OverrunFills(n, sentinel, s);
    var s2 := s.(buffer := s.buffer[s.head := x], pushed := s.pushed + [x], producer := MoveHead);
    DequeueLeads(n, sentinel, s2, x);
    s' := s2.(buffer := s2.buffer[s2.tail := sentinel], popped := s2.popped + [x], consumer := MoveTail(x));
    LeadsOn(n, sentinel, s, [ProducerStep, ProducerStep], s2, [Dequeue, ConsumerStep, ConsumerStep], s');
    assert s'.popped[|s.popped|] == x && s'.pushed[|s.popped|] == sentinel;
  }

  // ---------------------------------------------------------------- whole calls

  /** The consumer is inside the call of dequeue that event i began. */
  ghost predicate DequeueCall(run: seq<State>, events: seq<Event>, i: nat, j: nat) {
    && i < j < |run| == |events| + 1 && events[i] == Dequeue
    && forall l {:trigger run[l]} | i < l <= j :: !run[l].consumer.Out?
  }

  /** At instant l the consumer loads x, the oldest value. */
  ghost predicate LoadsOldest(sentinel: Value, run: seq<State>, events: seq<Event>, l: nat, x: Value) {
    && l < |run| && l < |events| && events[l] == ConsumerStep && run[l].consumer.Load?
    && |run[l].popped| < |run[l].pushed| && x == run[l].pushed[|run[l].popped|] && x != sentinel
  }

  /** At instant l the consumer finds no value to load. */
  ghost predicate LoadsNothing(sentinel: Value, run: seq<State>, events: seq<Event>, l: nat) {
    && l < |run| && l < |events| && events[l] == ConsumerStep && run[l].consumer.Load?
    && (run[l].pushed == run[l].popped || Blocked(sentinel, run[l]))
  }

  /** What the consumer has done of its call, when it began with base taken out: what it loaded, at l, and whether it
      has taken it out. */
  ghost predicate Dequeuing(sentinel: Value, run: seq<State>, events: seq<Event>, l: nat, s: State, base: seq<Value>) {
    match s.consumer
    case Out => false
    case Load => s.popped == base
    case Empty(x) => s.popped == base && LoadsOldest(sentinel, run, events, l, x)
    case MoveTail(x) => s.popped == base + [x] && LoadsOldest(sentinel, run, events, l, x)
    case Dequeued(ok, x) =>
      if ok then s.popped == base + [x] && LoadsOldest(sentinel, run, events, l, x)
      else s.popped == base && LoadsNothing(sentinel, run, events, l)
  }

  /** A thread inside a call makes steps only, and the other end leaves it alone. */
  lemma DequeueStep(n: nat, sentinel: Value, s: State, e: Event)
    requires Enabled(n, s, e) && !s.consumer.Out? && !Exec(n, sentinel, s, e).consumer.Out?
    ensures e != Dequeue
    ensures e != ConsumerStep ==>
              Exec(n, sentinel, s, e).consumer == s.consumer && Exec(n, sentinel, s, e).popped == s.popped
    ensures e == ConsumerStep ==> !s.consumer.Dequeued?
  {
  }

  lemma LoadTells(n: nat, sentinel: Value, run: seq<State>, events: seq<Event>, j: nat)
    requires Run(n, sentinel, run, events) && NoOverrun(n, sentinel, run, events) && j < |events|
    requires events[j] == ConsumerStep && run[j].consumer.Load?
    ensures match run[j + 1].consumer
            case Empty(x) => LoadsOldest(sentinel, run, events, j, x)
            case Dequeued(ok, _) => !ok && LoadsNothing(sentinel, run, events, j)
            case _ => false
  {
    AnswersCorrect(n, sentinel, run, events, j);
  }

  lemma DequeueMoves(n: nat, sentinel: Value, run: seq<State>, events: seq<Event>, l: nat, j: nat, base: seq<Value>)
    returns (l': nat)
    requires Run(n, sentinel, run, events) && NoOverrun(n, sentinel, run, events) && j < |events|
    requires events[j] == ConsumerStep && !run[j].consumer.Dequeued?
    requires l < j || run[j].consumer.Load?
    requires Dequeuing(sentinel, run, events, l, run[j], base)
    ensures l' == (if run[j].consumer.Load? then j else l)
    ensures Dequeuing(sentinel, run, events, l', run[j + 1], base)
  {
    l' := if run[j].consumer.Load? then j else l;
    assert run[j + 1] == Exec(n, sentinel, run[j], events[j]);
    if run[j].consumer.Load? {
      LoadTells(n, sentinel, run, events, j);
    }
  }

  lemma {:induction false} DequeueSoFar(n: nat, sentinel: Value, run: seq<State>, events: seq<Event>, i: nat, j: nat)
    returns (l: nat)
    requires Run(n, sentinel, run, events) && NoOverrun(n, sentinel, run, events) && DequeueCall(run, events, i, j)
    ensures i < l < j || (l == j && run[j].consumer.Load?)
    ensures Dequeuing(sentinel, run, events, l, run[j], run[i].popped)
  {
    assert run[j - 1 + 1] == Exec(n, sentinel, run[j - 1], events[j - 1]);
    l := j;
    if i + 1 < j {
      assert !run[j - 1].consumer.Out?;
      DequeueStep(n, sentinel, run[j - 1], events[j - 1]);
      var m := DequeueSoFar(n, sentinel, run, events, i, j - 1);
      if events[j - 1] == ConsumerStep {
        l := DequeueMoves(n, sentinel, run, events, m, j - 1, run[i].popped);
      } else if !run[j].consumer.Load? {
        l := m;
      }
    }
  }

  /** A dequeue that succeeds hands out the value that was the oldest at an instant l within the call, and takes exactly
      that one out; one that fails takes nothing out, and at l there was no value, or the sentinel blocked the others.
      */
  lemma DequeueAnswers(n: nat, sentinel: Value, run: seq<State>, events: seq<Event>, i: nat, j: nat) returns (l: nat)
    requires Run(n, sentinel, run, events) && NoOverrun(n, sentinel, run, events) && DequeueCall(run, events, i, j)
    requires run[j].consumer.Dequeued?
    ensures i < l < j
    ensures var x := run[j].consumer.x;
            if run[j].consumer.ok
            then run[j].popped == run[i].popped + [x] && LoadsOldest(sentinel, run, events, l, x)
            else run[j].popped == run[i].popped && LoadsNothing(sentinel, run, events, l)
  {
    l := DequeueSoFar(n, sentinel, run, events, i, j);
  }

  /** The producer is inside the call of enqueue that event i began. */
  ghost predicate EnqueueCall(run: seq<State>, events: seq<Event>, i: nat, j: nat) {
    && i < j < |run| == |events| + 1 && events[i].Enqueue?
    && forall l {:trigger run[l]} | i < l <= j :: !run[l].producer.Out?
  }

  /** At instant l the producer finds all n slots taken. */
  ghost predicate FindsFull(n: nat, run: seq<State>, events: seq<Event>, l: nat) {
    && l < |run| && l < |events| && events[l] == ProducerStep && run[l].producer.Test?
    && |run[l].pushed| == |run[l].popped| + n
  }

  ghost predicate Enqueuing(n: nat, run: seq<State>, events: seq<Event>, l: nat, s: State, base: seq<Value>, x: Value) {
    match s.producer
    case Out => false
    case Test(y) => s.pushed == base && y == x
    case Fill(y) => s.pushed == base && y == x
    case MoveHead => s.pushed == base + [x]
    case Enqueued(ok) => if ok then s.pushed == base + [x] else s.pushed == base && FindsFull(n, run, events, l)
  }

  lemma EnqueueStep(n: nat, sentinel: Value, s: State, e: Event)
    requires Enabled(n, s, e) && !s.producer.Out? && !Exec(n, sentinel, s, e).producer.Out?
    ensures !e.Enqueue?
    ensures e != ProducerStep ==>
              Exec(n, sentinel, s, e).producer == s.producer && Exec(n, sentinel, s, e).pushed == s.pushed
    ensures e == ProducerStep ==> !s.producer.Enqueued?
  {
  }

  lemma {:induction false} EnqueueSoFar(n: nat, sentinel: Value, run: seq<State>, events: seq<Event>, i: nat, j: nat)
    returns (l: nat)
    requires Run(n, sentinel, run, events) && NoOverrun(n, sentinel, run, events) && EnqueueCall(run, events, i, j)
    ensures i < l <= j && (run[j].producer.Enqueued? ==> l < j)
    ensures Enqueuing(n, run, events, l, run[j], run[i].pushed, events[i].x)
  {
    assert run[j - 1 + 1] == Exec(n, sentinel, run[j - 1], events[j - 1]);
    l := j;
    if i + 1 < j {
      assert !run[j - 1].producer.Out?;
      EnqueueStep(n, sentinel, run[j - 1], events[j - 1]);
      l := EnqueueSoFar(n, sentinel, run, events, i, j - 1);
      if events[j - 1] == ProducerStep && run[j - 1].producer.Test? {
        AnswersCorrect(n, sentinel, run, events, j - 1);
        l := j - 1;
      }
    }
  }

  /** An enqueue of x that succeeds puts in exactly x; one that fails puts in nothing, and at an instant l within the
      call all slots were taken. */
  lemma EnqueueAnswers(n: nat, sentinel: Value, run: seq<State>, events: seq<Event>, i: nat, j: nat) returns (l: nat)
    requires Run(n, sentinel, run, events) && NoOverrun(n, sentinel, run, events) && EnqueueCall(run, events, i, j)
    requires run[j].producer.Enqueued?
    ensures i < l < j
    ensures if run[j].producer.ok then run[j].pushed == run[i].pushed + [events[i].x]
            else run[j].pushed == run[i].pushed && FindsFull(n, run, events, l)
  {
    l := EnqueueSoFar(n, sentinel, run, events, i, j);
  }

  /** How many of its own steps an end has still to make. */
  function StepsLeft(s: State): (nat, nat) {
    (match s.producer case Out => 0 case Test(_) => 4 case Fill(_) => 3 case MoveHead => 2 case Enqueued(_) => 1,
     match s.consumer case Out => 0 case Load => 4 case Empty(_) => 3 case MoveTail(_) => 2 case Dequeued(_, _) => 1)
  }

  /** Both calls end after at most four steps of their own, whatever the other end does. */
  lemma CallsEnd(n: nat, sentinel: Value, s: State, e: Event)
    requires Enabled(n, s, e)
    ensures var s' := Exec(n, sentinel, s, e);
            && (e == ProducerStep ==> StepsLeft(s').0 < StepsLeft(s).0 && StepsLeft(s').1 == StepsLeft(s).1)
            && (e == ConsumerStep ==> StepsLeft(s').1 < StepsLeft(s).1 && StepsLeft(s').0 == StepsLeft(s).0)
  {
  }
}
