/** Why every call on the map can end: a thread that runs alone comes nearer to the end of its call with every step. */
module SplitListSolo {
  import opened Options
  import opened PowerOfTwo
  import opened SplitOrder
  import opened SplitListMachine
  import opened SplitListInvariant
  import opened SplitListProof
  import opened SplitListSteps
  import opened SplitListTheorems
  import opened SplitListProgress

  // ---------------------------------------------------------------- how far a call has come

  /** The phase of the call; in it, the buckets still to climb to or to initialize; whether a node is still to
      be allocated; whether the search has an outdated view of the list; the keys ahead of it; and the remaining
      steps. */
  datatype Rank = Rank(phase: nat, buckets: nat, unallocated: nat, view: nat, ahead: nat, steps: nat)

  ghost predicate Below(a: Rank, b: Rank) {
    || a.phase < b.phase
    || (a.phase == b.phase && a.buckets < b.buckets)
    || (a.phase == b.phase && a.buckets == b.buckets && BelowInSearch(a, b))
  }

  ghost predicate BelowInSearch(a: Rank, b: Rank) {
    || a.unallocated < b.unallocated
    || (a.unallocated == b.unallocated && a.view < b.view)
    || (a.unallocated == b.unallocated && a.view == b.view && a.ahead < b.ahead)
    || (a.unallocated == b.unallocated && a.view == b.view && a.ahead == b.ahead && a.steps < b.steps)
  }

  ghost function View(s: State, th: Thread): nat {
    if th.before.Keys == s.at.Keys then 0 else 2
  }

  function Unallocated(th: Thread): nat {
    if th.node == None then 1 else 0
  }

  /** The linked keys above the search's position. */
  ghost function Ahead(s: State, th: Thread): nat {
    if th.cur.Some? && th.cur.value in s.heap then |Above(s, s.heap[th.cur.value].key)| else 0
  }

  ghost function RankOf(s: State, th: Thread): Rank {
    match th.pc
    case Idle => Rank(0, 0, 0, 0, 0, 0)
    case ReadExp => Rank(4, 0, 0, 0, 0, 0)
    case GetBucket => Rank(3, PopCount(th.bucket), 0, 0, 0, 0)
    case Alloc => Rank(2, |th.stack|, 1, 0, 0, 0)
    case SearchStart => Rank(2, |th.stack|, Unallocated(th), 1, 0, 0)
    case LoadNext => Rank(2, |th.stack|, Unallocated(th), View(s, th), Ahead(s, th), 5)
    case ReloadNext => Rank(2, |th.stack|, Unallocated(th), View(s, th), Ahead(s, th), 4)
    case CheckPrev => Rank(2, |th.stack|, Unallocated(th), View(s, th), Ahead(s, th), 3)
    case StoreNext => Rank(2, |th.stack|, Unallocated(th), View(s, th), 0, 2)
    case CasLink => Rank(2, |th.stack|, Unallocated(th), View(s, th), 0, 1)
    case Publish => Rank(2, |th.stack|, 0, 0, 0, 0)
    case AwaitBucket => Rank(2, |th.stack|, 0, 0, 0, 0)
    case ReadSize => Rank(1, 0, 0, 0, 0, 4)
    case CountItem => Rank(1, 0, 0, 0, 0, 3)
    case Grow => Rank(1, 0, 0, 0, 0, 2)
    case Done => Rank(1, 0, 0, 0, 0, 1)
  }

  /** Thread t's step brings its call nearer to its end. */
  ghost predicate Nearer(s: State, t: Tid, s': State) {
    t in s.threads && t in s'.threads && Below(RankOf(s', s'.threads[t]), RankOf(s, s.threads[t]))
  }

  // ---------------------------------------------------------------- finding the bucket

  lemma EnterNearer(s: State, t: Tid, th: Thread, s': State, head: Id)
    requires t in s.threads && s.threads[t] == th && th.pc == GetBucket
    requires t in s'.threads && s'.threads[t] == EnterList(th, head)
    ensures Nearer(s, t, s')
  {
  }

  /** The parent's number has one bit less. */
  lemma ClimbNearer(s: State, t: Tid, th: Thread, s': State)
    requires t in s.threads && s.threads[t] == th && th.pc == GetBucket && th.bucket > 0
    requires t in s'.threads && s'.threads[t].pc == GetBucket && s'.threads[t].bucket == ParentBucket(th.bucket)
    ensures Nearer(s, t, s')
  {
    ParentClearsOneBit(th.bucket);
  }

  lemma GetBucketNearer(c: Config, s: State, t: Tid, th: Thread)
    requires TableInv(c, s) && t in s.threads && s.threads[t] == th && th.pc == GetBucket
    ensures Nearer(s, t, DoGetBucket(s, t, th))
  {
    var s' := DoGetBucket(s, t, th);
    if th.bucket in s.table {
      EnterNearer(s, t, th, s', s.table[th.bucket]);
    } else {
      ClimbNearer(s, t, th, s');
    }
  }

  lemma LeaveNearer(s: State, t: Tid, th: Thread, s': State, head: Id)
    requires t in s.threads && s.threads[t] == th && (th.pc == Publish || th.pc == AwaitBucket) && th.stack != []
    requires t in s'.threads && s'.threads[t] == LeaveInit(th, head)
    ensures Nearer(s, t, s')
  {
  }

  // ---------------------------------------------------------------- searching

  lemma AllocNearer(c: Config, s: State, t: Tid, th: Thread, n: Id)
    requires t in s.threads && s.threads[t] == th && th.pc == Alloc
    ensures Nearer(s, t, DoAlloc(c, s, t, th, n))
  {
  }

  lemma StartNearer(s: State, t: Tid, th: Thread)
    requires t in s.threads && s.threads[t] == th && th.pc == SearchStart
    ensures Nearer(s, t, DoSearchStart(s, t, th))
  {
  }

  /** A search that starts again had an outdated view. */
  lemma RestartNearer(s: State, t: Tid, th: Thread, s': State)
    requires t in s.threads && s.threads[t] == th && Attempting(th.pc) && th.before.Keys != s.at.Keys
    requires t in s'.threads && s'.threads[t] == th.(pc := SearchStart)
    ensures Nearer(s, t, s')
  {
  }

  lemma LoadNearer(s: State, t: Tid, th: Thread)
    requires t in s.threads && s.threads[t] == th && th.pc == LoadNext && th.cur.Some? && th.cur.value in s.heap
    ensures Nearer(s, t, DoLoadNext(s, t, th))
  {
  }

  /** The next pointer is as it was read. */
  lemma ReloadNearer(s: State, t: Tid, th: Thread)
    requires t in s.threads && s.threads[t] == th && th.pc == ReloadNext && th.cur.Some? && th.cur.value in s.heap
    requires s.heap[th.cur.value].next == th.next
    ensures Nearer(s, t, DoReloadNext(s, t, th))
  {
  }

  lemma FoundNearer(s: State, t: Tid, th: Thread)
    requires t in s.threads && s.threads[t] == th && th.pc == CheckPrev
    ensures Nearer(s, t, Found(s, t, th))
  {
  }

  lemma StopNearer(s: State, t: Tid, th: Thread, th1: Thread)
    requires t in s.threads && s.threads[t] == th && th.pc == CheckPrev
    requires th1 == th.(prev := th1.prev, cur := th1.cur, lin := th1.lin)
    ensures Nearer(s, t, s.Then(t, NotFound(th1)))
  {
  }

  lemma AdvanceNearer(s: State, t: Tid, th: Thread)
    requires t in s.threads && s.threads[t] == th && th.pc == CheckPrev && th.next.Some?
    requires th.cur.Some? && th.cur.value in s.heap && NextOk(s, th)
    ensures Nearer(s, t, s.Then(t, th.(pc := LoadNext, prev := th.cur, cur := th.next)))
  {
    AboveShrinks(s, s.heap[th.cur.value].key, s.heap[th.next.value].key);
  }

  lemma ComparedNearer(c: Config, s: State, t: Tid, th: Thread)
    requires ThreadInv(c, s, th) && t in s.threads && s.threads[t] == th && th.pc == CheckPrev
    ensures Nearer(s, t, Compared(c, s, t, th))
  {
    var cmp := Compare(s.heap[th.cur.value].key, Target(c, th));
    if cmp == 0 {
      FoundNearer(s, t, th);
    } else if cmp > 0 {
      StopNearer(s, t, th, th.(lin := s.Now()));
    } else if th.next == None {
      StopNearer(s, t, th, th.(prev := th.cur, cur := None));
    } else {
      AdvanceNearer(s, t, th);
    }
  }

  // ---------------------------------------------------------------- linking

  lemma StoreNearer(s: State, t: Tid, th: Thread)
    requires t in s.threads && s.threads[t] == th && th.pc == StoreNext && th.node.Some? && th.node.value in s.heap
    ensures Nearer(s, t, DoStoreNext(s, t, th))
  {
  }

  lemma InsertedNearer(s: State, t: Tid, th: Thread, s': State)
    requires t in s.threads && s.threads[t] == th && th.pc == CasLink
    requires t in s'.threads && s'.threads[t] == Inserted(s, th)
    ensures Nearer(s, t, s')
  {
  }

  // ---------------------------------------------------------------- all steps

  /** No other thread is about to put a bucket in the table. */
  ghost predicate NobodyElsePublishes(s: State, t: Tid) {
    forall u | u in s.threads && u != t :: s.threads[u].pc != Publish
  }

  lemma AwaitedIsThere(c: Config, s: State, t: Tid, b: nat)
    requires PublishInv(c, s) && NobodyElsePublishes(s, t) && t in s.threads && s.threads[t].pc != Publish
    requires b < c.Capacity() && c.BucketKey(b) in s.at
    ensures b in s.table
  {
    assert forall u :: !Publishing(s, u, b);
  }

  lemma AwaitNearer(c: Config, s: State, t: Tid, th: Thread)
    requires c.Valid() && Inv(c, s) && t in s.threads && s.threads[t] == th && th.pc == AwaitBucket
    requires NobodyElsePublishes(s, t)
    ensures th.stack != [] && Nearer(s, t, DoAwaitBucket(s, t, th))
  {
    assert ThreadInv(c, s, th);
    AwaitedIsThere(c, s, t, Last(th.stack));
    LeaveNearer(s, t, th, DoAwaitBucket(s, t, th), s.table[Last(th.stack)]);
  }

  lemma RestartOrNot(c: Config, s: State, t: Tid, ch: Choice)
    requires Enabled(s, t, ch) && ThreadInv(c, s, s.threads[t]) && AttemptInv(s, s.threads[t])
    requires Attempting(s.threads[t].pc) && Exec(c, s, t, ch).threads[t].pc == SearchStart
    requires Exec(c, s, t, ch).threads[t] == s.threads[t].(pc := SearchStart)
    ensures Nearer(s, t, Exec(c, s, t, ch))
  {
    StepRestarts(c, s, t, ch);
    RestartNearer(s, t, s.threads[t], Exec(c, s, t, ch));
  }

  lemma AttemptNearer(c: Config, s: State, t: Tid, ch: Choice)
    requires Enabled(s, t, ch) && ThreadInv(c, s, s.threads[t]) && AttemptInv(s, s.threads[t])
    requires Attempting(s.threads[t].pc)
    ensures Nearer(s, t, Exec(c, s, t, ch))
  {
    var th := s.threads[t];
    match th.pc
    case LoadNext => LoadNearer(s, t, th);
    case ReloadNext =>
      if s.heap[th.cur.value].next == th.next {
        ReloadNearer(s, t, th);
      } else {
        RestartOrNot(c, s, t, ch);
      }
    case CheckPrev =>
      var stored := if th.prev == None then Some(th.head) else s.heap[th.prev.value].next;
      if stored == th.cur {
        ComparedNearer(c, s, t, th);
      } else {
        RestartOrNot(c, s, t, ch);
      }
    case StoreNext => StoreNearer(s, t, th);
    case CasLink =>
      if s.heap[th.prev.value].next == th.cur {
        InsertedNearer(s, t, th, DoCasLink(s, t, th));
      } else {
        RestartOrNot(c, s, t, ch);
      }
  }

  predicate AtEdge(pc: Pc) {
    pc.ReadExp? || pc.ReadSize? || pc.CountItem? || pc.Grow? || pc.Done?
  }

  lemma HeadNearer(c: Config, s: State, t: Tid, ch: Choice)
    requires TableInv(c, s) && Enabled(s, t, ch)
    requires var pc := s.threads[t].pc; pc.GetBucket? || pc.Alloc? || pc.SearchStart? || pc.Publish?
    ensures Nearer(s, t, Exec(c, s, t, ch))
  {
    var th := s.threads[t];
    match th.pc
    case GetBucket => GetBucketNearer(c, s, t, th);
    case Alloc => AllocNearer(c, s, t, th, ch.address);
    case SearchStart => StartNearer(s, t, th);
    case Publish => LeaveNearer(s, t, th, DoPublish(s, t, th), th.node.value);
  }

  lemma NextAtEdge(s: State, t: Tid, th: Thread, s': State)
    requires t in s.threads && s.threads[t] == th && t in s'.threads
    requires var pc, pc' := th.pc, s'.threads[t].pc;
             || (pc.ReadExp? && pc'.GetBucket?) || (pc.ReadSize? && pc'.CountItem?)
             || (pc.CountItem? && (pc'.Grow? || pc'.Done?)) || (pc.Grow? && pc'.Done?) || (pc.Done? && pc'.Idle?)
    ensures Nearer(s, t, s')
  {
  }

  /** At the beginning of the call, and when its search is over. */
  lemma EdgeNearer(c: Config, s: State, t: Tid, ch: Choice)
    requires Enabled(s, t, ch)
    requires AtEdge(s.threads[t].pc)
    ensures Nearer(s, t, Exec(c, s, t, ch))
  {
    var th := s.threads[t];
    match th.pc
    case ReadExp => NextAtEdge(s, t, th, DoReadExp(c, s, t, th));
    case ReadSize => NextAtEdge(s, t, th, DoReadSize(s, t, th));
    case CountItem => NextAtEdge(s, t, th, DoCountItem(c, s, t, th));
    case Grow => NextAtEdge(s, t, th, DoGrow(s, t, th));
    case Done => NextAtEdge(s, t, th, DoDone(s, t, th));
  }

  /** With every step a thread that is not disturbed comes nearer to the end of its call. */
  lemma StepNearer(c: Config, s: State, t: Tid, ch: Choice)
    requires c.Valid() && Inv(c, s) && AllAttempts(s) && Enabled(s, t, ch) && s.threads[t].pc != Idle
    requires NobodyElsePublishes(s, t)
    ensures Nearer(s, t, Exec(c, s, t, ch))
  {
    var th := s.threads[t];
    assert ThreadInv(c, s, th) && AttemptInv(s, th);
    if th.pc == AwaitBucket {
      AwaitNearer(c, s, t, th);
    } else if Attempting(th.pc) {
      AttemptNearer(c, s, t, ch);
    } else if AtEdge(th.pc) {
      EdgeNearer(c, s, t, ch);
    } else {
      HeadNearer(c, s, t, ch);
    }
  }

  // ---------------------------------------------------------------- calls end

  /** Thread t alone goes from s to s', with the addresses that it is given. */
  ghost predicate Alone(c: Config, s: State, t: Tid, choices: seq<Choice>, s': State)
    decreases |choices|
  {
    if choices == [] then s' == s
    else Enabled(s, t, choices[0]) && Alone(c, Exec(c, s, t, choices[0]), t, choices[1..], s')
  }

  lemma FreshAddress(heap: map<Id, Node>) returns (n: Id)
    ensures n !in heap
  {
    n := 0;
    if 0 in heap {
      n := AddressAbove(heap.Keys);
    }
  }

  lemma AddressAbove(used: set<Id>) returns (n: Id)
    ensures forall m | m in used :: m < n
  {
    if used == {} {
      n := 0;
    } else {
      var m :| m in used;
      var k := AddressAbove(used - {m});
      n := if m < k then k else m + 1;
      forall l | l in used ensures l < n {
        assert l == m || l in used - {m};
      }
    }
  }

  lemma Undisturbed(c: Config, s: State, t: Tid, ch: Choice)
    requires Enabled(s, t, ch) && NobodyElsePublishes(s, t)
    ensures NobodyElsePublishes(Exec(c, s, t, ch), t)
  {
    assert Progress(s, t, s.threads[t], Exec(c, s, t, ch));
  }

  lemma AnyChoice(c: Config, s: State, t: Tid) returns (ch: Choice)
    requires Inv(c, s) && t in s.threads
    ensures Enabled(s, t, ch)
  {
    var n := FreshAddress(s.heap);
    ch := Choice(Find, 0, n);
    assert ThreadInv(c, s, s.threads[t]);
  }

  /** From every state that the map can be in, a thread that runs alone completes its call, whatever the others were
      doing: unless one of them is just about to put a bucket in the table, which takes it one step. */
  lemma CallsEndAlone(c: Config, s: State, t: Tid, r: Rank) returns (choices: seq<Choice>, s': State)
    requires c.Valid() && Inv(c, s) && AllAttempts(s) && t in s.threads && NobodyElsePublishes(s, t)
    requires r == RankOf(s, s.threads[t])
    ensures Alone(c, s, t, choices, s') && t in s'.threads && s'.threads[t].pc == Idle
    decreases r.phase, r.buckets, r.unallocated, r.view, r.ahead, r.steps
  {
    if s.threads[t].pc == Idle {
      choices, s' := [], s;
    } else {
      var ch := AnyChoice(c, s, t);
      var next := Exec(c, s, t, ch);
      StepNearer(c, s, t, ch);
      StepKeepsInv(c, s, t, ch);
      StepKeepsAttempts(c, s, t, ch);
      Undisturbed(c, s, t, ch);
      var rest;
      rest, s' := CallsEndAlone(c, next, t, RankOf(next, next.threads[t]));
      choices := [ch] + rest;
      assert choices[1..] == rest;
    }
  }

  /** In every run, then. */
  lemma SoloEnds(c: Config, run: seq<State>, events: seq<Event>, j: nat, t: Tid)
    returns (choices: seq<Choice>, s': State)
    requires Run(c, run, events) && j < |run| && t in run[j].threads && NobodyElsePublishes(run[j], t)
    ensures Alone(c, run[j], t, choices, s') && t in s'.threads && s'.threads[t].pc == Idle
  {
    RunKeepsInv(c, run, events, j);
    RunKeepsAttempts(c, run, events, j);
    choices, s' := CallsEndAlone(c, run[j], t, RankOf(run[j], run[j].threads[t]));
  }
}
