/** Every step of the split-ordered map keeps its invariant. */
module SplitListSteps {
  import opened Options
  import opened PowerOfTwo
  import opened SplitOrder
  import opened SplitListMachine
  import opened SplitListInvariant
  import opened SplitListProof

  /** What a step owes: the shared state, the stepping thread, and what the others rely on. */
  ghost predicate Kept(c: Config, s: State, s': State, t: Tid, th': Thread) {
    && s'.threads == s.threads[t := th']
    && SharedInv(c, s')
    && ThreadInv(c, s', th')
    && (forall u | u in s.threads && u != t :: Rely(s, s', s.threads[u]))
  }

  /** What a thread holds: a node that is not linked, or a linked dummy to publish. */
  ghost predicate Holding(c: Config, s: State, th: Thread) {
    && (InSearch(th.pc) && th.node.Some? ==> th.node.value in s.heap && !Linked(s, th.node.value))
    && (th.pc == Publish && th.stack != [] ==>
          && c.BucketKey(Last(th.stack)) in s.at && th.node == Some(s.at[c.BucketKey(Last(th.stack))]))
  }

  lemma HoldingOf(c: Config, s: State, th: Thread)
    requires ThreadInv(c, s, th)
    ensures Holding(c, s, th)
  {
  }

  /** The threads other than t, as t's step may rely on them. */
  ghost predicate Others(c: Config, s: State, t: Tid) {
    && t in s.threads
    && (forall u | u in s.threads && u != t :: Holding(c, s, s.threads[u]))
    && NodesDistinct(s)
  }

  lemma QuietRely(c: Config, s: State, s': State, th: Thread)
    requires Quiet(s, s') && Holding(c, s, th)
    ensures Rely(s, s', th)
  {
  }

  lemma PrivateRely(c: Config, s: State, s': State, n: Id, th: Thread)
    requires IndexOk(s) && PrivateChange(s, s', n) && Holding(c, s, th)
    requires n in s.heap ==> th.node != Some(n)
    ensures Rely(s, s', th)
  {
    PrivateChangeLinks(s, s', n);
  }

  lemma LinkRely(c: Config, s: State, s': State, p: Id, n: Id, q: Option<Id>, th: Thread)
    requires IndexOk(s) && LinkChange(s, s', p, n, q) && s.heap[n].key !in s.at
    requires Holding(c, s, th) && th.node != Some(n)
    ensures Rely(s, s', th)
  {
    LinkChangeKeepsNodes(s, s', p, n, q);
  }

  lemma TableRely(c: Config, s: State, s': State, b: nat, n: Id, th: Thread)
    requires TableChange(s, s', b, n) && s'.history == s.history + [s'.at.Keys]
    requires b !in s.table && c.BucketKey(b) in s.at && s.at[c.BucketKey(b)] == n
    requires Holding(c, s, th) && th.node != Some(n)
    ensures Rely(s, s', th)
  {
  }

  lemma QuietKept(c: Config, s: State, s': State, t: Tid, th': Thread)
    requires SharedInv(c, s) && Quiet(s, s') && s'.threads == s.threads[t := th']
    requires Others(c, s, t)
    requires ThreadInv(c, s', th')
    ensures Kept(c, s, s', t, th')
  {
    QuietKeepsShared(c, s, s');
    forall u | u in s.threads && u != t ensures Rely(s, s', s.threads[u]) {
      QuietRely(c, s, s', s.threads[u]);
    }
  }

  lemma PrivateKept(c: Config, s: State, s': State, t: Tid, th': Thread, n: Id)
    requires SharedInv(c, s) && PrivateChange(s, s', n) && s'.threads == s.threads[t := th']
    requires Others(c, s, t) && (n !in s.heap || s.threads[t].node == Some(n))
    requires ThreadInv(c, s', th')
    ensures Kept(c, s, s', t, th')
  {
    PrivateChangeKeepsShared(c, s, s', n);
    forall u | u in s.threads && u != t ensures Rely(s, s', s.threads[u]) {
      PrivateRely(c, s, s', n, s.threads[u]);
    }
  }

  lemma LinkKept(c: Config, s: State, s': State, t: Tid, th': Thread, p: Id, n: Id, q: Option<Id>)
    requires SharedInv(c, s) && Insertion(c, s, s', p, n, q) && s'.threads == s.threads[t := th']
    requires Others(c, s, t) && s.threads[t].node == Some(n)
    requires ThreadInv(c, s', th')
    ensures Kept(c, s, s', t, th')
  {
    InsertionKeepsNodes(c, s, s', p, n, q);
    InsertionKeepsList(c, s, s', p, n, q);
    forall u | u in s.threads && u != t ensures Rely(s, s', s.threads[u]) {
      LinkRely(c, s, s', p, n, q, s.threads[u]);
    }
  }

  lemma TableKept(c: Config, s: State, s': State, t: Tid, th': Thread, b: nat, n: Id)
    requires SharedInv(c, s) && TableChange(s, s', b, n) && s'.threads == s.threads[t := th']
    requires s'.history == s.history + [s'.at.Keys]
    requires Others(c, s, t) && s.threads[t].node == Some(n)
    requires b < c.Capacity() && b !in s.table && c.BucketKey(b) in s.at && s.at[c.BucketKey(b)] == n
    requires ThreadInv(c, s', th')
    ensures Kept(c, s, s', t, th')
  {
    TableChangeKeepsShared(c, s, s', b, n);
    forall u | u in s.threads && u != t ensures Rely(s, s', s.threads[u]) {
      TableRely(c, s, s', b, n, s.threads[u]);
    }
  }

  // ---------------------------------------------------------------- whole steps

  /** Threads keep apart the nodes they own. */
  ghost predicate NodeEffect(s: State, s': State, t: Tid)
    requires t in s.threads && t in s'.threads
  {
    var node, node' := s.threads[t].node, s'.threads[t].node;
    node' == None || node' == node || node'.value !in s.heap
  }

  /** Thread t announces the dummies it links, and stops announcing one when the table knows it. */
  ghost predicate PublishEffect(c: Config, s: State, s': State, t: Tid) {
    forall b: nat | b < c.Capacity() && c.BucketKey(b) in s'.at && b !in s'.table ::
      (c.BucketKey(b) in s.at && b !in s.table && !Publishing(s, t, b)) || Publishing(s', t, b)
  }

  ghost predicate StepOk(c: Config, s: State, s': State, t: Tid) {
    && t in s.threads && t in s'.threads
    && Kept(c, s, s', t, s'.threads[t])
    && NodeEffect(s, s', t)
    && PublishEffect(c, s, s', t)
  }

  ghost predicate Ready(c: Config, s: State, t: Tid, th: Thread) {
    && c.Valid() && SharedInv(c, s) && Others(c, s, t)
    && s.threads[t] == th && ThreadInv(c, s, th)
  }

  lemma QuietStep(c: Config, s: State, s': State, t: Tid, th: Thread, th': Thread)
    requires Ready(c, s, t, th) && th.pc != Publish
    requires Quiet(s, s') && s'.threads == s.threads[t := th']
    requires th'.node == None || th'.node == th.node
    requires ThreadInv(c, s', th')
    ensures StepOk(c, s, s', t)
  {
    QuietKept(c, s, s', t, th');
  }

  lemma PrivateStep(c: Config, s: State, s': State, t: Tid, th: Thread, th': Thread, n: Id)
    requires Ready(c, s, t, th) && th.pc != Publish
    requires PrivateChange(s, s', n) && s'.threads == s.threads[t := th']
    requires n !in s.heap || th.node == Some(n)
    requires th'.node == None || th'.node == Some(n)
    requires ThreadInv(c, s', th')
    ensures StepOk(c, s, s', t)
  {
    PrivateKept(c, s, s', t, th', n);
  }

  lemma StepIdle(c: Config, s: State, t: Tid, th: Thread, ch: Choice)
    requires Ready(c, s, t, th) && th.pc == Idle
    ensures StepOk(c, s, DoIdle(s, t, th, ch), t)
  {
    var s' := DoIdle(s, t, th, ch);
    OwnIdle(c, s, s', th, s'.threads[t]);
    QuietStep(c, s, s', t, th, s'.threads[t]);
  }

  lemma StepReadExp(c: Config, s: State, t: Tid, th: Thread)
    requires Ready(c, s, t, th) && th.pc == ReadExp
    ensures StepOk(c, s, DoReadExp(c, s, t, th), t)
  {
    var s' := DoReadExp(c, s, t, th);
    OwnReadExp(c, s, s', th, s'.threads[t]);
    QuietStep(c, s, s', t, th, s'.threads[t]);
  }

  lemma GetBucketShape(s: State, t: Tid, th: Thread)
    requires 0 in s.table && th.node == None
    ensures var s' := DoGetBucket(s, t, th); var th' := if t in s'.threads then s'.threads[t] else th;
            && Quiet(s, s') && s'.threads == s.threads[t := th'] && BucketRead(s, th, th')
  {
  }

  /** The bucket's head is in the table, or the bucket is to be initialized. */
  ghost predicate BucketRead(s: State, th: Thread, th': Thread) {
    && th'.node == None
    && if th.bucket in s.table then th' == EnterList(th, s.table[th.bucket])
       else th.bucket > 0 && th' == th.(stack := th.stack + [th.bucket], bucket := ParentBucket(th.bucket))
  }

  lemma BucketReadOk(c: Config, s: State, s': State, t: Tid, th: Thread, th': Thread)
    requires Ready(c, s, t, th) && th.pc == GetBucket
    requires Quiet(s, s') && s'.threads == s.threads[t := th'] && BucketRead(s, th, th')
    ensures StepOk(c, s, s', t)
  {
    OwnGetBucket(c, s, s', th, th');
    QuietStep(c, s, s', t, th, th');
  }

  lemma StepGetBucket(c: Config, s: State, t: Tid, th: Thread)
    requires Ready(c, s, t, th) && th.pc == GetBucket
    ensures StepOk(c, s, DoGetBucket(s, t, th), t)
  {
    var s' := DoGetBucket(s, t, th);
    GetBucketShape(s, t, th);
    BucketReadOk(c, s, s', t, th, s'.threads[t]);
  }

  lemma AllocPrivate(c: Config, s: State, t: Tid, th: Thread, n: Id)
    requires n !in s.heap
    ensures PrivateChange(s, DoAlloc(c, s, t, th, n), n)
  {
  }

  lemma StepAlloc(c: Config, s: State, t: Tid, th: Thread, n: Id)
    requires Ready(c, s, t, th) && th.pc == Alloc && n !in s.heap
    ensures StepOk(c, s, DoAlloc(c, s, t, th, n), t)
  {
    var s' := DoAlloc(c, s, t, th, n);
    AllocPrivate(c, s, t, th, n);
    OwnAlloc(c, s, s', th, s'.threads[t], n);
    PrivateStep(c, s, s', t, th, s'.threads[t], n);
  }

  lemma StepSearchStart(c: Config, s: State, t: Tid, th: Thread)
    requires Ready(c, s, t, th) && th.pc == SearchStart
    ensures StepOk(c, s, DoSearchStart(s, t, th), t)
  {
    var s' := DoSearchStart(s, t, th);
    OwnSearchStart(c, s, s', th, s'.threads[t]);
    QuietStep(c, s, s', t, th, s'.threads[t]);
  }

  lemma StepLoadNext(c: Config, s: State, t: Tid, th: Thread)
    requires Ready(c, s, t, th) && th.pc == LoadNext
    ensures StepOk(c, s, DoLoadNext(s, t, th), t)
  {
    var s' := DoLoadNext(s, t, th);
    OwnLoadNext(c, s, s', th, s'.threads[t]);
    QuietStep(c, s, s', t, th, s'.threads[t]);
  }

  lemma StepRestart(c: Config, s: State, s': State, t: Tid, th: Thread)
    requires Ready(c, s, t, th) && InSearch(th.pc)
    requires s' == s.Then(t, th.(pc := SearchStart))
    ensures StepOk(c, s, s', t)
  {
    OwnRestart(c, s, s', th, s'.threads[t]);
    QuietStep(c, s, s', t, th, s'.threads[t]);
  }

  lemma StepReloadNext(c: Config, s: State, t: Tid, th: Thread)
    requires Ready(c, s, t, th) && th.pc == ReloadNext
    ensures StepOk(c, s, DoReloadNext(s, t, th), t)
  {
    var s' := DoReloadNext(s, t, th);
    if s.heap[th.cur.value].next == th.next {
      OwnReloadNext(c, s, s', th, s'.threads[t]);
      QuietStep(c, s, s', t, th, s'.threads[t]);
    } else {
      StepRestart(c, s, s', t, th);
    }
  }

  lemma OwnFound(c: Config, s: State, t: Tid, th: Thread)
    requires SharedInv(c, s) && ThreadInv(c, s, th)
    requires th.pc == CheckPrev && s.heap[th.cur.value].key == Target(c, th)
    ensures ThreadInv(c, Found(s, t, th), Found(s, t, th).threads[t])
  {
    var s' := Found(s, t, th);
    if th.stack != [] {
      OwnFoundDummy(c, s, s', th, s'.threads[t]);
    } else {
      OwnFoundItem(c, s, s', th, s'.threads[t]);
    }
  }

  lemma FoundQuiet(s: State, t: Tid, th: Thread)
    requires th.node == None
    ensures Quiet(s, Found(s, t, th))
  {
  }

  lemma FoundThread(s: State, t: Tid, th: Thread)
    ensures t in Found(s, t, th).threads && Found(s, t, th).threads[t].node == None
    ensures Found(s, t, th).threads == s.threads[t := Found(s, t, th).threads[t]]
  {
  }

  lemma FoundPrivate(c: Config, s: State, t: Tid, th: Thread)
    requires NodeOk(c, s, th) && th.node.Some?
    ensures PrivateChange(s, Found(s, t, th), th.node.value)
  {
  }

  lemma StepFound(c: Config, s: State, t: Tid, th: Thread)
    requires Ready(c, s, t, th) && th.pc == CheckPrev && s.heap[th.cur.value].key == Target(c, th)
    ensures StepOk(c, s, Found(s, t, th), t)
  {
    var s' := Found(s, t, th);
    OwnFound(c, s, t, th);
    FoundThread(s, t, th);
    if th.node.Some? {
      FoundPrivate(c, s, t, th);
      PrivateStep(c, s, s', t, th, s'.threads[t], th.node.value);
    } else {
      FoundQuiet(s, t, th);
      QuietStep(c, s, s', t, th, s'.threads[t]);
    }
  }

  lemma StepNotFound(c: Config, s: State, s': State, t: Tid, th: Thread, th1: Thread)
    requires Ready(c, s, t, th) && PlaceFound(c, s, th, th1)
    requires s' == s.Then(t, NotFound(th1))
    ensures StepOk(c, s, s', t)
  {
    if th.stack == [] && th.op == Find {
      OwnMissing(c, s, s', th, th1, s'.threads[t]);
    } else if th.node == None {
      OwnAllocLater(c, s, s', th, th1, s'.threads[t]);
    } else {
      OwnPlace(c, s, s', th, th1, s'.threads[t]);
    }
    QuietStep(c, s, s', t, th, s'.threads[t]);
  }

  /** A key between prev and cur is not in the list while prev points to cur. */
  lemma AbsentNow(c: Config, s: State, th: Thread)
    requires ListInv(c, s) && th.prev.Some? && Linked(s, th.prev.value) && th.cur.Some?
    requires s.heap[th.prev.value].next == th.cur && th.cur.value in s.heap
    requires Less(s.heap[th.prev.value].key, Target(c, th)) && Less(Target(c, th), s.heap[th.cur.value].key)
    ensures Target(c, th) !in s.at
  {
    KeyIsNew(c, s, th.prev.value, Target(c, th));
  }

  lemma StepPassed(c: Config, s: State, s': State, t: Tid, th: Thread)
    requires Ready(c, s, t, th) && th.pc == CheckPrev
    requires th.prev.Some? ==> s.heap[th.prev.value].next == th.cur
    requires Less(Target(c, th), s.heap[th.cur.value].key)
    requires s' == s.Then(t, NotFound(th.(lin := s.Now())))
    ensures StepOk(c, s, s', t)
  {
    StopsPastHead(c, s, th);
    AbsentNow(c, s, th);
    StepNotFound(c, s, s', t, th, th.(lin := s.Now()));
  }

  lemma StepAdvance(c: Config, s: State, s': State, t: Tid, th: Thread)
    requires Ready(c, s, t, th) && th.pc == CheckPrev
    requires Less(s.heap[th.cur.value].key, Target(c, th)) && th.next.Some?
    requires s' == s.Then(t, th.(pc := LoadNext, prev := th.cur, cur := th.next))
    ensures StepOk(c, s, s', t)
  {
    OwnAdvance(c, s, s', th, s'.threads[t]);
    QuietStep(c, s, s', t, th, s'.threads[t]);
  }

  lemma StepBehind(c: Config, s: State, s': State, t: Tid, th: Thread)
    requires Ready(c, s, t, th) && th.pc == CheckPrev
    requires Less(s.heap[th.cur.value].key, Target(c, th)) && s' == s.Then(t, Passed(s, th, -1))
    ensures StepOk(c, s, s', t)
  {
    if th.next == None {
      StepNotFound(c, s, s', t, th, th.(prev := th.cur, cur := None));
    } else {
      StepAdvance(c, s, s', t, th);
    }
  }

  lemma StepCompared(c: Config, s: State, t: Tid, th: Thread)
    requires Ready(c, s, t, th) && th.pc == CheckPrev
    requires th.prev.Some? ==> s.heap[th.prev.value].next == th.cur
    ensures StepOk(c, s, Compared(c, s, t, th), t)
  {
    var s' := Compared(c, s, t, th);
    CursorCompares(c, s, th);
    var cmp := Compare(s.heap[th.cur.value].key, Target(c, th));
    if cmp == 0 {
      StepFound(c, s, t, th);
    } else if cmp > 0 {
      StepPassed(c, s, s', t, th);
    } else {
      StepBehind(c, s, s', t, th);
    }
  }

  lemma StepCheckPrev(c: Config, s: State, t: Tid, th: Thread)
    requires Ready(c, s, t, th) && th.pc == CheckPrev
    ensures StepOk(c, s, DoCheckPrev(c, s, t, th), t)
  {
    var stored := if th.prev == None then Some(th.head) else s.heap[th.prev.value].next;
    if stored != th.cur {
      StepRestart(c, s, DoCheckPrev(c, s, t, th), t, th);
    } else {
      StepCompared(c, s, t, th);
    }
  }

  lemma StorePrivate(c: Config, s: State, t: Tid, th: Thread)
    requires NodeOk(c, s, th) && th.node.Some?
    ensures PrivateChange(s, DoStoreNext(s, t, th), th.node.value)
  {
  }

  lemma StepStoreNext(c: Config, s: State, t: Tid, th: Thread)
    requires Ready(c, s, t, th) && th.pc == StoreNext
    ensures StepOk(c, s, DoStoreNext(s, t, th), t)
  {
    var s' := DoStoreNext(s, t, th);
    StorePrivate(c, s, t, th);
    OwnStoreNext(c, s, s', th, s'.threads[t]);
    PrivateStep(c, s, s', t, th, s'.threads[t], th.node.value);
  }

  /** Only the search for a dummy inserts a dummy, and only that of its own bucket. */
  lemma TargetDummy(c: Config, th: Thread, b: nat)
    requires c.Valid() && StackInv(c, th) && b < c.Capacity() && c.BucketKey(b) == Target(c, th)
    ensures th.stack != [] && b == Last(th.stack)
  {
    KeyFacts(c, b, th.item);
    assert th.stack != [];
    Pow2Monotone(c.capExp, c.w - 1);
    DummyKeyInjective(c.w, b, Last(th.stack));
  }

  lemma LinkPublishes(c: Config, s: State, s': State, t: Tid, th: Thread)
    requires c.Valid() && StackInv(c, th) && t in s.threads && s.threads[t] == th
    requires th.pc == CasLink && th.node.Some? && t in s'.threads
    requires s'.at == s.at[Target(c, th) := th.node.value] && s'.table == s.table
    requires th.stack != [] ==> s'.threads[t] == th.(pc := Publish)
    ensures PublishEffect(c, s, s', t)
  {
    forall b: nat | b < c.Capacity() && c.BucketKey(b) in s'.at && b !in s'.table && c.BucketKey(b) !in s.at
      ensures Publishing(s', t, b)
    {
      TargetDummy(c, th, b);
    }
  }

  /** The swap succeeds at a place between two neighbours. */
  lemma CasInserts(c: Config, s: State, t: Tid, th: Thread)
    requires ListInv(c, s) && ThreadInv(c, s, th) && th.pc == CasLink && s.heap[th.prev.value].next == th.cur
    ensures Insertion(c, s, DoCasLink(s, t, th), th.prev.value, th.node.value, th.cur)
  {
    TargetOk(c, th);
  }

  lemma StepLink(c: Config, s: State, s': State, t: Tid, th: Thread)
    requires Ready(c, s, t, th) && th.pc == CasLink && th.node.Some? && th.prev.Some?
    requires Insertion(c, s, s', th.prev.value, th.node.value, th.cur)
    requires s.heap[th.node.value].key == Target(c, th) && s'.threads == s.threads[t := Inserted(s, th)]
    ensures StepOk(c, s, s', t)
  {
    var th' := Inserted(s, th);
    if th.stack == [] {
      OwnLinkItem(c, s, s', th, th');
    } else {
      OwnLinkDummy(c, s, s', th, th');
    }
    LinkKept(c, s, s', t, th', th.prev.value, th.node.value, th.cur);
    LinkPublishes(c, s, s', t, th);
  }

  lemma StepCasLink(c: Config, s: State, t: Tid, th: Thread)
    requires Ready(c, s, t, th) && th.pc == CasLink
    ensures StepOk(c, s, DoCasLink(s, t, th), t)
  {
    if s.heap[th.prev.value].next == th.cur {
      CasInserts(c, s, t, th);
      StepLink(c, s, DoCasLink(s, t, th), t, th);
    } else {
      StepRestart(c, s, DoCasLink(s, t, th), t, th);
    }
  }

  /** The state after setBucket, before initBucket returns. */
  function Published(s: State, th: Thread): State
    requires th.node.Some? && th.stack != []
  {
    s.(table := s.table[Last(th.stack) := th.node.value])
  }

  lemma PublishedShared(c: Config, s: State, th: Thread)
    requires SharedInv(c, s) && ThreadInv(c, s, th) && th.pc == Publish
    ensures SharedInv(c, Published(s, th))
  {
    TableChangeKeepsShared(c, s, Published(s, th), Last(th.stack), th.node.value);
  }

  lemma StepPublish(c: Config, s: State, t: Tid, th: Thread)
    requires Ready(c, s, t, th) && th.pc == Publish
    ensures StepOk(c, s, DoPublish(s, t, th), t)
  {
    var s' := DoPublish(s, t, th);
    var th' := s'.threads[t];
    PublishedShared(c, s, th);
    OwnLeaveInit(c, s, Published(s, th), s', th, th', th.node.value);
    PublishKept(c, s, s', t, th, th');
  }

  lemma PublishKept(c: Config, s: State, s': State, t: Tid, th: Thread, th': Thread)
    requires Ready(c, s, t, th) && th.pc == Publish && ThreadInv(c, s', th')
    requires s' == DoPublish(s, t, th) && th' == s'.threads[t]
    ensures StepOk(c, s, s', t)
  {
    TableKept(c, s, s', t, th', Last(th.stack), th.node.value);
    PublishDone(c, s, s', t, th);
  }

  /** The dummy that the table now knows is no longer announced; the others are left alone. */
  lemma PublishDone(c: Config, s: State, s': State, t: Tid, th: Thread)
    requires t in s.threads && s.threads[t] == th && th.pc == Publish && th.stack != []
    requires s'.at == s.at && Last(th.stack) in s'.table && forall b | b in s.table :: b in s'.table
    ensures PublishEffect(c, s, s', t)
  {
  }

  lemma StepAwaitBucket(c: Config, s: State, t: Tid, th: Thread)
    requires Ready(c, s, t, th) && th.pc == AwaitBucket
    ensures StepOk(c, s, DoAwaitBucket(s, t, th), t)
  {
    var s' := DoAwaitBucket(s, t, th);
    if Last(th.stack) in s.table {
      OwnLeaveInit(c, s, s, s', th, s'.threads[t], s.table[Last(th.stack)]);
    }
    QuietStep(c, s, s', t, th, s'.threads[t]);
  }

  lemma StepReadSize(c: Config, s: State, t: Tid, th: Thread)
    requires Ready(c, s, t, th) && th.pc == ReadSize
    ensures StepOk(c, s, DoReadSize(s, t, th), t)
  {
    var s' := DoReadSize(s, t, th);
    OwnReadSize(c, s, s', th, s'.threads[t]);
    QuietStep(c, s, s', t, th, s'.threads[t]);
  }

  lemma StepCountItem(c: Config, s: State, t: Tid, th: Thread)
    requires Ready(c, s, t, th) && th.pc == CountItem
    ensures StepOk(c, s, DoCountItem(c, s, t, th), t)
  {
    var s' := DoCountItem(c, s, t, th);
    if s'.threads[t].pc == Grow {
      SmallerExponent(c, th.sz);
      OwnWillGrow(c, s, s', th, s'.threads[t]);
    } else {
      OwnFinish(c, s, s', th, s'.threads[t]);
    }
    QuietStep(c, s, s', t, th, s'.threads[t]);
  }

  lemma GrowRely(c: Config, s: State, s': State, th: Thread)
    requires s'.heap == s.heap && s'.at == s.at && s'.table == s.table && s.exp <= s'.exp
    requires s'.history == s.history + [s'.at.Keys] && Holding(c, s, th)
    ensures Rely(s, s', th)
  {
  }

  lemma StepGrow(c: Config, s: State, t: Tid, th: Thread)
    requires Ready(c, s, t, th) && th.pc == Grow
    ensures StepOk(c, s, DoGrow(s, t, th), t)
  {
    var s' := DoGrow(s, t, th);
    OwnFinish(c, s, s', th, s'.threads[t]);
    QuietKeepsShared(c, s, s');
    forall u | u in s.threads && u != t ensures Rely(s, s', s.threads[u]) {
      GrowRely(c, s, s', s.threads[u]);
    }
  }

  lemma StepDone(c: Config, s: State, t: Tid, th: Thread)
    requires Ready(c, s, t, th) && th.pc == Done
    ensures StepOk(c, s, DoDone(s, t, th), t)
  {
    var s' := DoDone(s, t, th);
    OwnDone(c, s, s', th, s'.threads[t]);
    QuietStep(c, s, s', t, th, s'.threads[t]);
  }

  // ---------------------------------------------------------------- the invariant

  lemma InvReady(c: Config, s: State, t: Tid)
    requires c.Valid() && Inv(c, s) && t in s.threads
    ensures Ready(c, s, t, s.threads[t])
  {
    forall u | u in s.threads ensures Holding(c, s, s.threads[u]) {
      HoldingOf(c, s, s.threads[u]);
    }
  }

  lemma SearchStepOk(c: Config, s: State, t: Tid, ch: Choice)
    requires t in s.threads && Ready(c, s, t, s.threads[t]) && Enabled(s, t, ch)
    requires InSearch(s.threads[t].pc) || s.threads[t].pc == Publish
    ensures StepOk(c, s, Exec(c, s, t, ch), t)
  {
    var th := s.threads[t];
    match th.pc
    case SearchStart => StepSearchStart(c, s, t, th);
    case LoadNext => StepLoadNext(c, s, t, th);
    case ReloadNext => StepReloadNext(c, s, t, th);
    case CheckPrev => StepCheckPrev(c, s, t, th);
    case StoreNext => StepStoreNext(c, s, t, th);
    case CasLink => StepCasLink(c, s, t, th);
    case Publish => StepPublish(c, s, t, th);
  }

  lemma EveryStepOk(c: Config, s: State, t: Tid, ch: Choice)
    requires t in s.threads && Ready(c, s, t, s.threads[t]) && Enabled(s, t, ch)
    ensures StepOk(c, s, Exec(c, s, t, ch), t)
  {
    var th := s.threads[t];
    match th.pc
    case Idle => StepIdle(c, s, t, th, ch);
    case ReadExp => StepReadExp(c, s, t, th);
    case GetBucket => StepGetBucket(c, s, t, th);
    case Alloc => StepAlloc(c, s, t, th, ch.address);
    case AwaitBucket => StepAwaitBucket(c, s, t, th);
    case ReadSize => StepReadSize(c, s, t, th);
    case CountItem => StepCountItem(c, s, t, th);
    case Grow => StepGrow(c, s, t, th);
    case Done => StepDone(c, s, t, th);
    case _ => SearchStepOk(c, s, t, ch);
  }

  ghost predicate NodesAllocated(s: State) {
    forall u | u in s.threads && s.threads[u].node.Some? :: s.threads[u].node.value in s.heap
  }

  lemma InvNodesAllocated(c: Config, s: State)
    requires Inv(c, s)
    ensures NodesAllocated(s)
  {
    forall u | u in s.threads && s.threads[u].node.Some?
      ensures s.threads[u].node.value in s.heap
    {
      assert ThreadInv(c, s, s.threads[u]);
    }
  }

  lemma KeepsDistinct(s: State, s': State, t: Tid)
    requires NodesDistinct(s) && NodesAllocated(s)
    requires t in s.threads && t in s'.threads && s'.threads == s.threads[t := s'.threads[t]]
    requires NodeEffect(s, s', t)
    ensures NodesDistinct(s')
  {
  }

  lemma KeepsPublishing(c: Config, s: State, s': State, t: Tid)
    requires PublishInv(c, s) && PublishEffect(c, s, s', t)
    requires t in s.threads && t in s'.threads && s'.threads == s.threads[t := s'.threads[t]]
    ensures PublishInv(c, s')
  {
    forall b: nat | b < c.Capacity() && c.BucketKey(b) in s'.at && b !in s'.table
      ensures exists u :: Publishing(s', u, b)
    {
      if !Publishing(s', t, b) {
        var u :| Publishing(s, u, b);
        assert Publishing(s', u, b);
      }
    }
  }

  lemma ThreadsKept(c: Config, s: State, s': State, t: Tid)
    requires Inv(c, s) && StepOk(c, s, s', t)
    ensures forall u | u in s'.threads :: ThreadInv(c, s', s'.threads[u])
  {
    forall u | u in s'.threads ensures ThreadInv(c, s', s'.threads[u]) {
      if u != t {
        assert ThreadInv(c, s, s.threads[u]);
        RelyKeeps(c, s, s', s.threads[u]);
      }
    }
  }

  lemma StepKeepsInv(c: Config, s: State, t: Tid, ch: Choice)
    requires c.Valid() && Inv(c, s) && Enabled(s, t, ch)
    ensures Inv(c, Exec(c, s, t, ch))
    ensures StepOk(c, s, Exec(c, s, t, ch), t)
  {
    var s' := Exec(c, s, t, ch);
    InvReady(c, s, t);
    EveryStepOk(c, s, t, ch);
    ThreadsKept(c, s, s', t);
    InvNodesAllocated(c, s);
    KeepsDistinct(s, s', t);
    KeepsPublishing(c, s, s', t);
  }

  lemma InitInv(c: Config, s: State)
    requires c.Valid() && Init(c, s)
    ensures Inv(c, s)
  {
    var k := c.BucketKey(0);
    assert KeyOk(c, k);
    assert LinkOk(s, k);
    forall b: nat | b < c.Capacity() && c.BucketKey(b) in s.at ensures b in s.table {
      Pow2Monotone(c.capExp, c.w - 1);
      DummyKeyInjective(c.w, b, 0);
    }
  }
}
