/** What the invariant says about whole runs of the split-ordered map. */
module SplitListTheorems {
  import Runs
  import opened Options
  import opened PowerOfTwo
  import opened SplitOrder
  import opened SplitListMachine
  import opened SplitListInvariant
  import opened SplitListProof
  import opened SplitListSteps

  /** Any interleaving of any number of threads from the initial state. */
  ghost predicate Run(c: Config, run: seq<State>, events: seq<Event>) {
    && c.Valid()
    && |run| == |events| + 1 && Init(c, run[0])
    && forall i | 0 <= i < |events| :: StepAt(c, run, events, i)
  }

  ghost predicate StepAt(c: Config, run: seq<State>, events: seq<Event>, i: int)
    requires 0 <= i < |events| && |run| == |events| + 1
  {
    Enabled(run[i], events[i].t, events[i].ch) && run[i + 1] == Exec(c, run[i], events[i].t, events[i].ch)
  }

  lemma RunStepKeepsInv(c: Config, run: seq<State>, events: seq<Event>, k: nat)
    requires c.Valid() && k + 1 < |run| == |events| + 1 && StepAt(c, run, events, k) && Inv(c, run[k])
    ensures Inv(c, run[k + 1])
  {
    StepKeepsInv(c, run[k], events[k].t, events[k].ch);
  }

  lemma RunKeepsInv(c: Config, run: seq<State>, events: seq<Event>, j: nat)
    requires Run(c, run, events) && j < |run|
    ensures Inv(c, run[j])
  {
    InitInv(c, run[0]);
    forall k | 0 <= k < |run| - 1 && Inv(c, run[k]) ensures Inv(c, run[k + 1]) {
      assert StepAt(c, run, events, k);
      RunStepKeepsInv(c, run, events, k);
    }
    Runs.Invariant(run, s => Inv(c, s), j);
  }

  /** The thread that performs the step from run[j], and what its step may do. */
  lemma StepOfRun(c: Config, run: seq<State>, events: seq<Event>, j: nat) returns (t: Tid)
    requires Run(c, run, events) && j + 1 < |run|
    ensures t == events[j].t && t in run[j].threads && Progress(run[j], t, run[j].threads[t], run[j + 1])
    ensures ThreadInv(c, run[j], run[j].threads[t]) && ListInv(c, run[j])
    ensures run[j].threads[t].pc == Idle ==>
              run[j + 1].threads[t].op == events[j].ch.op && run[j + 1].threads[t].item == events[j].ch.item
  {
    RunKeepsInv(c, run, events, j);
    assert StepAt(c, run, events, j);
    t := events[j].t;
  }

  // ---------------------------------------------------------------- no step goes wrong

  /** Every pointer a thread is about to follow is valid: no step is ever stuck, whatever the others did. */
  lemma NeverStuck(c: Config, run: seq<State>, events: seq<Event>, j: nat, t: Tid, ch: Choice)
    requires Run(c, run, events) && j < |run| && t in run[j].threads
    requires run[j].threads[t].pc == Alloc ==> ch.address !in run[j].heap
    ensures Enabled(run[j], t, ch)
  {
    RunKeepsInv(c, run, events, j);
    assert ThreadInv(c, run[j], run[j].threads[t]);
  }

  /** Bucket numbers are valid table indices and bucket 0 is always there to end the climb to the parents. */
  lemma BucketsInRange(c: Config, run: seq<State>, events: seq<Event>, j: nat, t: Tid)
    requires Run(c, run, events) && j < |run| && t in run[j].threads
    ensures 1 <= run[j].exp <= c.capExp && Pow2(run[j].exp) <= c.Capacity()
    ensures 0 in run[j].table
    ensures run[j].threads[t].pc == GetBucket ==> run[j].threads[t].bucket < c.Capacity()
    ensures forall i | 0 <= i < |run[j].threads[t].stack| :: 0 < run[j].threads[t].stack[i] < c.Capacity()
  {
    RunKeepsInv(c, run, events, j);
    var th := run[j].threads[t];
    assert ThreadInv(c, run[j], th);
    Pow2Monotone(run[j].exp, c.capExp);
    if th.pc == GetBucket {
      HomeInRange(c, run[j], th);
      if th.stack != [] {
        ParentBucketBounds(Last(th.stack));
      }
    }
  }

  /** The compare-and-swap that links a node never has the caller's local copy of the bucket head as its target. */
  lemma CasTargetsTheList(c: Config, run: seq<State>, events: seq<Event>, j: nat, t: Tid)
    requires Run(c, run, events) && j < |run| && t in run[j].threads && run[j].threads[t].pc == CasLink
    ensures run[j].threads[t].prev.Some?
    ensures Linked(run[j], run[j].threads[t].prev.value)
  {
    RunKeepsInv(c, run, events, j);
    assert ThreadInv(c, run[j], run[j].threads[t]);
  }

  // ---------------------------------------------------------------- the list

  /** The linked keys above k. */
  ghost function Above(s: State, k: Key): set<Key> {
    set j | j in s.at && Less(k, j)
  }

  /** The keys met when the next pointers are followed from the node of key k. */
  ghost function Walk(c: Config, s: State, k: Key): seq<Key>
    requires ListInv(c, s) && k in s.at
    decreases |Above(s, k)|
  {
    assert LinkOk(s, k);
    match s.heap[s.at[k]].next
    case None => [k]
    case Some(m) =>
      AboveShrinks(s, k, s.heap[m].key);
      [k] + Walk(c, s, s.heap[m].key)
  }

  lemma SubsetIsSmaller<T>(a: set<T>, b: set<T>, x: T)
    requires a <= b && x in b && x !in a
    ensures |a| < |b|
  {
    assert |b| == |a| + |b - a| by {
      assert b == a + (b - a);
    }
    assert x in b - a;
  }

  lemma AboveShrinks(s: State, k: Key, j: Key)
    requires j in s.at && Less(k, j)
    ensures |Above(s, j)| < |Above(s, k)|
  {
    SubsetIsSmaller(Above(s, j), Above(s, k), j);
  }

  ghost predicate Sorted(ks: seq<Key>) {
    forall i, j | 0 <= i < j < |ks| :: Less(ks[i], ks[j])
  }

  lemma {:induction false} WalkListsAbove(c: Config, s: State, k: Key)
    requires ListInv(c, s) && k in s.at
    ensures Sorted(Walk(c, s, k))
    ensures forall j :: j in Walk(c, s, k) <==> j in s.at && (j == k || Less(k, j))
    decreases |Above(s, k)|
  {
    assert LinkOk(s, k);
    match s.heap[s.at[k]].next
    case None =>
    case Some(m) =>
      var k' := s.heap[m].key;
      AboveShrinks(s, k, k');
      WalkListsAbove(c, s, k');
      var rest := Walk(c, s, k');
      assert Walk(c, s, k) == [k] + rest;
      forall j ensures j in Walk(c, s, k) <==> j in s.at && (j == k || Less(k, j)) {
        assert j in Walk(c, s, k) <==> j == k || j in rest;
      }
      forall i | 0 <= i < |rest| ensures Less(k, rest[i]) {
        assert rest[i] in rest;
      }
  }

  lemma FirstKeyLeast(c: Config, k: Key)
    requires c.Valid() && KeyOk(c, k)
    ensures k == c.BucketKey(0) || Less(c.BucketKey(0), k)
  {
    RevZero(c.w);
    if IsDummy(k) {
      var b: nat :| b < c.Capacity() && k == c.BucketKey(b);
      if k.hash == 0 {
        Pow2Monotone(c.capExp, c.w - 1);
        DummyKeyInjective(c.w, b, 0);
      }
    }
  }

  /** At every instant the chain of pointers from the first dummy is strictly sorted by reversed hash
      and key, and holds exactly the keys that were linked so far. */
  lemma ListSorted(c: Config, run: seq<State>, events: seq<Event>, j: nat)
    requires Run(c, run, events) && j < |run|
    ensures ListInv(c, run[j]) && c.BucketKey(0) in run[j].at
    ensures Sorted(Walk(c, run[j], c.BucketKey(0)))
    ensures forall k :: k in Walk(c, run[j], c.BucketKey(0)) <==> k in run[j].at
  {
    RunKeepsInv(c, run, events, j);
    var s := run[j];
    assert c.BucketKey(0) in s.at;
    WalkListsAbove(c, s, c.BucketKey(0));
    forall k | k in s.at ensures k in Walk(c, s, c.BucketKey(0)) {
      assert KeyOk(c, k);
      FirstKeyLeast(c, k);
    }
  }

  /** Keys stay linked, each to the same node. */
  ghost predicate Grew(s: State, s': State) {
    forall k | k in s.at :: k in s'.at && s'.at[k] == s.at[k]
  }

  lemma StepGrows(c: Config, s: State, t: Tid, th: Thread, s': State)
    requires ListInv(c, s) && ThreadInv(c, s, th) && Progress(s, t, th, s')
    ensures Grew(s, s')
  {
    if th.pc == CasLink && s'.threads[t].pc != SearchStart {
      KeyIsNew(c, s, th.prev.value, Target(c, th));
    }
  }

  /** The list only grows. */
  lemma ListGrows(c: Config, run: seq<State>, events: seq<Event>, i: nat, j: nat)
    requires Run(c, run, events) && i <= j < |run|
    ensures Grew(run[i], run[j])
    ensures run[i].at.Keys <= run[j].at.Keys
  {
    forall k | 0 <= k < |run| - 1 ensures Grew(run[k], run[k + 1]) {
      var t := StepOfRun(c, run, events, k);
      StepGrows(c, run[k], t, run[k].threads[t], run[k + 1]);
    }
    Runs.Preorder(run, (s, s') => Grew(s, s'), i, j);
  }

  // ---------------------------------------------------------------- linearizability

  ghost predicate Records(s: State, s': State) {
    s'.history == s.history + [s'.at.Keys]
  }

  lemma {:induction false} RecordsAll(run: seq<State>, j: nat)
    requires j < |run| && run[0].history == [run[0].at.Keys]
    requires forall k | 0 <= k < |run| - 1 :: Records(run[k], run[k + 1])
    ensures |run[j].history| == j + 1
    ensures forall i | 0 <= i <= j :: run[j].history[i] == run[i].at.Keys
  {
    if j > 0 {
      RecordsAll(run, j - 1);
      assert Records(run[j - 1], run[j - 1 + 1]);
    }
  }

  lemma HistoryRecordsRun(c: Config, run: seq<State>, events: seq<Event>, j: nat)
    requires Run(c, run, events) && j < |run|
    ensures |run[j].history| == j + 1
    ensures forall i | 0 <= i <= j :: run[j].history[i] == run[i].at.Keys
  {
    forall k | 0 <= k < |run| - 1 ensures Records(run[k], run[k + 1]) {
      var t := StepOfRun(c, run, events, k);
    }
    RecordsAll(run, j);
  }

  /** Event i begins a call of thread t, which has been inside it ever since, up to j. */
  ghost predicate Call(run: seq<State>, events: seq<Event>, i: nat, j: nat, t: Tid) {
    && i < j < |run| == |events| + 1
    && (forall k | i <= k <= j :: t in run[k].threads)
    && run[i].threads[t].pc == Idle && events[i].t == t
    && (forall k | i < k <= j :: run[k].threads[t].pc != Idle)
  }

  /** Thread t's compare-and-swap links the item of its call at instant k. */
  ghost predicate Wins(run: seq<State>, k: nat, t: Tid, item: int) {
    && k + 1 < |run| && t in run[k].threads && t in run[k + 1].threads
    && run[k].threads[t].pc == CasLink && run[k].threads[t].stack == [] && run[k].threads[t].item == item
    && run[k + 1].threads[t].pc == ReadSize
  }

  /** Within a call nothing but the operation's own steps moves its thread. */
  ghost predicate CallStepOk(run: seq<State>, events: seq<Event>, j: nat, t: Tid) {
    && j + 1 < |run| == |events| + 1 && t in run[j].threads && t in run[j + 1].threads
    && var th, th', ch := run[j].threads[t], run[j + 1].threads[t], events[j].ch;
       && (if th.pc == Idle then th'.pc == Idle || (th'.start == j && th'.op == ch.op && th'.item == ch.item)
           else th'.start == th.start && th'.op == th.op && th'.item == th.item)
       && (Counting(th') && !Counting(th) ==> Wins(run, j, t, th.item))
       && (Counting(th) && th'.pc != Idle ==> Counting(th'))
  }

  lemma CallStep(c: Config, run: seq<State>, events: seq<Event>, j: nat, t: Tid)
    requires Run(c, run, events) && j + 1 < |run| && t in run[j].threads && t in run[j + 1].threads
    ensures CallStepOk(run, events, j, t)
  {
    var u := StepOfRun(c, run, events, j);
    HistoryRecordsRun(c, run, events, j);
  }

  /** A thread works on what its call was made for. */
  lemma {:induction false} CallRecorded(run: seq<State>, events: seq<Event>, i: nat, j: nat, t: Tid)
    requires Call(run, events, i, j, t) && forall k | i <= k < j :: CallStepOk(run, events, k, t)
    ensures run[j].threads[t].start == i
    ensures run[j].threads[t].op == events[i].ch.op && run[j].threads[t].item == events[i].ch.item
  {
    assert CallStepOk(run, events, j - 1, t);
    if i + 1 < j {
      CallRecorded(run, events, i, j - 1, t);
    }
  }

  /** A successful insertion linked its item within the call. */
  lemma {:induction false} SuccessWins(run: seq<State>, events: seq<Event>, i: nat, j: nat, t: Tid)
    requires Call(run, events, i, j, t) && forall k | i <= k < j :: CallStepOk(run, events, k, t)
    requires Counting(run[j].threads[t])
    ensures exists k :: i <= k < j && Wins(run, k, t, run[j].threads[t].item)
  {
    assert CallStepOk(run, events, j - 1, t);
    if Counting(run[j - 1].threads[t]) {
      SuccessWins(run, events, i, j - 1, t);
    } else {
      assert Wins(run, j - 1, t, run[j].threads[t].item);
    }
  }

  /** From a state on in which the call has linked its item, it is a successful insertion. */
  lemma {:induction false} StaysCounting(run: seq<State>, events: seq<Event>, i: nat, l: nat, j: nat, t: Tid)
    requires Call(run, events, i, j, t) && forall k | i <= k < j :: CallStepOk(run, events, k, t)
    requires i <= l <= j && Counting(run[l].threads[t])
    ensures Counting(run[j].threads[t])
  {
    if l < j {
      StaysCounting(run, events, i, l, j - 1, t);
      assert CallStepOk(run, events, j - 1, t);
    }
  }

  /** Whoever links an item is an insertion that succeeds. */
  lemma WinCounts(c: Config, run: seq<State>, events: seq<Event>, k: nat, t: Tid, item: int)
    requires Run(c, run, events) && Wins(run, k, t, item)
    ensures Counting(run[k + 1].threads[t])
  {
    RunKeepsInv(c, run, events, k + 1);
    assert ThreadInv(c, run[k + 1], run[k + 1].threads[t]);
  }

  /** A call links an item only if it is a successful insertion of that item. */
  lemma WinsForCall(c: Config, run: seq<State>, events: seq<Event>, i: nat, l: nat, j: nat, t: Tid, item: int)
    requires Run(c, run, events) && Call(run, events, i, j, t) && i <= l < j && Wins(run, l, t, item)
    ensures item == events[i].ch.item && events[i].ch.op != Find && run[j].threads[t].result
            && Counting(run[j].threads[t])
  {
    CallSteps(c, run, events, i, j, t);
    WinCounts(c, run, events, l, t, item);
    StaysCounting(run, events, i, l + 1, j, t);
    CallRecorded(run, events, i, j, t);
    CallRecorded(run, events, i, l, t);
  }

  /** A winning step adds its item to the list, where it was not, and changes nothing else. */
  lemma WinAddsItem(c: Config, run: seq<State>, events: seq<Event>, k: nat, t: Tid, item: int)
    requires Run(c, run, events) && Wins(run, k, t, item)
    ensures c.ItemKey(item) !in run[k].at
    ensures run[k + 1].at.Keys == run[k].at.Keys + {c.ItemKey(item)}
    ensures forall u | u in run[k].threads && u != t :: u in run[k + 1].threads
               && run[k + 1].threads[u] == run[k].threads[u]
  {
    var u := StepOfRun(c, run, events, k);
    assert u == t;
    var th := run[k].threads[t];
    KeyIsNew(c, run[k], th.prev.value, Target(c, th));
  }

  /** Of all the calls that insert one item, at any time and by any thread, exactly one links it. */
  lemma OneWinner(c: Config, run: seq<State>, events: seq<Event>, k: nat, t: Tid, k': nat, t': Tid, item: int)
    requires Run(c, run, events) && Wins(run, k, t, item) && Wins(run, k', t', item)
    ensures k == k' && t == t'
  {
    WinAddsItem(c, run, events, k, t, item);
    WinAddsItem(c, run, events, k', t', item);
    if k < k' {
      ListGrows(c, run, events, k + 1, k');
    } else if k' < k {
      ListGrows(c, run, events, k' + 1, k);
    }
  }

  /** Only an operation that looked the item up and missed it can have put it there. */
  lemma {:induction false} PresentHasWinner(c: Config, run: seq<State>, events: seq<Event>, j: nat, item: int)
    requires Run(c, run, events) && j < |run| && c.ItemKey(item) in run[j].at
    ensures exists k: nat, t :: k < j && Wins(run, k, t, item)
  {
    KeyFacts(c, 0, item);
    if j > 0 {
      if c.ItemKey(item) in run[j - 1].at {
        PresentHasWinner(c, run, events, j - 1, item);
      } else {
        var t := StepOfRun(c, run, events, j - 1);
        NewItemWins(c, run[j - 1], t, run[j - 1].threads[t], run[j], item);
        assert Wins(run, j - 1, t, item);
      }
    }
  }

  lemma NewItemWins(c: Config, s: State, t: Tid, th: Thread, s': State, item: int)
    requires ThreadInv(c, s, th) && Progress(s, t, th, s')
    requires c.ItemKey(item) !in s.at && c.ItemKey(item) in s'.at
    ensures th.pc == CasLink && th.stack == [] && th.item == item && s'.threads[t].pc == ReadSize
  {
    if th.stack != [] {
      KeyFacts(c, Last(th.stack), item);
    }
  }

  lemma AnsweredThen(c: Config, s: State, th: Thread)
    requires Outcome(c, s, th) && (th.op == Find || !th.result)
    ensures th.start <= th.lin < |s.history| && 0 <= th.lin
    ensures c.ItemKey(th.item) in s.history[th.lin] <==> th.op != Find || th.result
  {
  }

  lemma DoneOutcome(c: Config, run: seq<State>, events: seq<Event>, j: nat, t: Tid)
    requires Run(c, run, events) && j < |run| && t in run[j].threads && run[j].threads[t].pc == Done
    ensures Outcome(c, run[j], run[j].threads[t])
  {
    RunKeepsInv(c, run, events, j);
    assert ThreadInv(c, run[j], run[j].threads[t]);
  }

  /** A look-up, and an insertion that fails, answer for the instant that they recorded. */
  lemma LooksUp(c: Config, run: seq<State>, events: seq<Event>, j: nat, t: Tid) returns (k: int)
    requires Run(c, run, events) && j < |run| && t in run[j].threads && run[j].threads[t].pc == Done
    requires run[j].threads[t].op == Find || !run[j].threads[t].result
    ensures var th := run[j].threads[t];
            && th.start <= k <= j && 0 <= k
            && (c.ItemKey(th.item) in run[k].at <==> th.op != Find || th.result)
  {
    DoneOutcome(c, run, events, j, t);
    AnsweredThen(c, run[j], run[j].threads[t]);
    HistoryRecordsRun(c, run, events, j);
    k := run[j].threads[t].lin;
    assert run[j].history[k] == run[k].at.Keys;
  }

  lemma CallSteps(c: Config, run: seq<State>, events: seq<Event>, i: nat, j: nat, t: Tid)
    requires Run(c, run, events) && Call(run, events, i, j, t)
    ensures forall k | i <= k < j :: CallStepOk(run, events, k, t)
  {
    forall k | i <= k < j ensures CallStepOk(run, events, k, t) {
      CallStep(c, run, events, k, t);
    }
  }

  /** The answer of a call of op for item is that of the abstract set at instant k. */
  ghost predicate AnswersAt(c: Config, run: seq<State>, t: Tid, op: Op, item: int, answer: bool, k: int)
    requires 0 <= k < |run|
  {
    match op
    case Find => answer <==> c.ItemKey(item) in run[k].at
    case _ => if answer then Wins(run, k, t, item) else c.ItemKey(item) in run[k].at
  }

  /** Thread t links nothing from i to j but what a successful insertion of the item links at k. */
  ghost predicate LinksOnly(run: seq<State>, i: nat, j: nat, t: Tid, op: Op, item: int, answer: bool, k: int) {
    forall l: nat, x {:trigger Wins(run, l, t, x)} | i <= l < j && Wins(run, l, t, x) ::
      l == k && x == item && op != Find && answer
  }

  /** Every completed operation answers as the abstract set would at one instant within the call, for the operation and
      the item that the call was made with, whatever bucket count it started from and however many buckets it had to
      initialize: a look-up reports membership at that instant; an insertion that succeeds adds its item, and nothing
      else, at that instant; one that fails meets the item in the set. Look-ups and insertions that fail add nothing. */
  lemma Linearizable(c: Config, run: seq<State>, events: seq<Event>, i: nat, j: nat, t: Tid)
    requires Run(c, run, events) && Call(run, events, i, j, t) && run[j].threads[t].pc == Done
    ensures var op, item, answer := events[i].ch.op, events[i].ch.item, run[j].threads[t].result;
            exists k :: i <= k <= j && AnswersAt(c, run, t, op, item, answer, k)
                        && LinksOnly(run, i, j, t, op, item, answer, k)
  {
    var op, item, answer := events[i].ch.op, events[i].ch.item, run[j].threads[t].result;
    CallSteps(c, run, events, i, j, t);
    CallRecorded(run, events, i, j, t);
    forall l: nat, x | i <= l < j && Wins(run, l, t, x) ensures x == item && op != Find && answer {
      WinsForCall(c, run, events, i, l, j, t, x);
    }
    if op != Find && answer {
      SuccessWins(run, events, i, j, t);
      var k :| i <= k < j && Wins(run, k, t, item);
      forall l: nat, x | i <= l < j && Wins(run, l, t, x) ensures l == k {
        OneWinner(c, run, events, k, t, l, t, item);
      }
      assert AnswersAt(c, run, t, op, item, answer, k) && LinksOnly(run, i, j, t, op, item, answer, k);
    } else {
      var k := LooksUp(c, run, events, j, t);
      assert AnswersAt(c, run, t, op, item, answer, k) && LinksOnly(run, i, j, t, op, item, answer, k);
    }
  }

  // ---------------------------------------------------------------- initializing buckets

  /** A dummy that is linked but not yet in the table has exactly one thread about to publish it. */
  lemma OnePublisher(c: Config, run: seq<State>, events: seq<Event>, j: nat, b: nat)
    requires Run(c, run, events) && j < |run|
    requires b < c.Capacity() && c.BucketKey(b) in run[j].at && b !in run[j].table
    ensures exists t :: Publishing(run[j], t, b)
    ensures forall t, u | Publishing(run[j], t, b) && Publishing(run[j], u, b) :: t == u
  {
    RunKeepsInv(c, run, events, j);
    var s := run[j];
    forall t, u | Publishing(s, t, b) && Publishing(s, u, b) ensures t == u {
      assert ThreadInv(c, s, s.threads[t]);
      assert ThreadInv(c, s, s.threads[u]);
    }
  }

  /** The loop that waits for a bucket waits for a thread that is not itself waiting, and whose next step,
      which nothing can prevent, ends the wait. */
  lemma WaitEnds(c: Config, run: seq<State>, events: seq<Event>, j: nat, t: Tid)
    requires Run(c, run, events) && j < |run| && t in run[j].threads && run[j].threads[t].pc == AwaitBucket
    requires run[j].threads[t].stack != [] ==> Last(run[j].threads[t].stack) !in run[j].table
    ensures run[j].threads[t].stack != []
    ensures exists u :: Publishing(run[j], u, Last(run[j].threads[t].stack)) && u != t
    ensures forall u, ch | Publishing(run[j], u, Last(run[j].threads[t].stack)) ::
              Enabled(run[j], u, ch) && Last(run[j].threads[t].stack) in Exec(c, run[j], u, ch).table
  {
    RunKeepsInv(c, run, events, j);
    var s := run[j];
    var th := s.threads[t];
    assert ThreadInv(c, s, th);
    var b := Last(th.stack);
    OnePublisher(c, run, events, j, b);
    forall u, ch | Publishing(s, u, b) ensures Enabled(s, u, ch) && b in Exec(c, s, u, ch).table {
      assert ThreadInv(c, s, s.threads[u]);
    }
  }

  lemma {:induction false} StackDepth(c: Config, th: Thread, i: nat)
    requires StackInv(c, th) && i < |th.stack|
    ensures PopCount(th.stack[i]) + i == PopCount(th.home)
  {
    if i > 0 {
      StackDepth(c, th, i - 1);
      ParentClearsOneBit(th.stack[i - 1]);
      assert th.stack[i - 1 + 1] == ParentBucket(th.stack[i - 1]);
    }
  }

  lemma {:induction false} PopCountPositive(v: nat)
    requires v > 0
    ensures PopCount(v) > 0
  {
    if v > 1 {
      PopCountPositive(v / 2);
    }
  }

  /** initBucket nests at most as deep as its bucket number has set bits. */
  lemma RecursionDepth(c: Config, run: seq<State>, events: seq<Event>, j: nat, t: Tid)
    requires Run(c, run, events) && j < |run| && t in run[j].threads
    ensures var th := run[j].threads[t]; |th.stack| > 0 ==> |th.stack| <= PopCount(th.home)
  {
    RunKeepsInv(c, run, events, j);
    var th := run[j].threads[t];
    assert ThreadInv(c, run[j], th);
    if th.stack != [] {
      StackDepth(c, th, |th.stack| - 1);
      PopCountPositive(Last(th.stack));
    }
  }
}
