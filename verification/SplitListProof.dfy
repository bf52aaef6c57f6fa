/** Every step of every thread keeps the invariant of the split-ordered map. */
module SplitListProof {
  import opened Options
  import opened PowerOfTwo
  import opened SplitOrder
  import opened SplitListMachine
  import opened SplitListInvariant

  // ---------------------------------------------------------------- keys of the search

  lemma KeyFacts(c: Config, b: nat, item: int)
    ensures IsDummy(c.BucketKey(b)) && Proper(c.BucketKey(b))
    ensures !IsDummy(c.ItemKey(item)) && Proper(c.ItemKey(item))
  {
  }

  lemma KeyOkProper(c: Config, k: Key)
    requires KeyOk(c, k)
    ensures Proper(k)
  {
    if IsDummy(k) {
      var b: nat :| b < c.Capacity() && k == c.BucketKey(b);
    }
  }

  lemma TargetOk(c: Config, th: Thread)
    requires StackInv(c, th)
    ensures KeyOk(c, Target(c, th)) && Proper(Target(c, th))
  {
    if th.stack == [] {
      KeyFacts(c, 0, th.item);
    } else {
      KeyFacts(c, Last(th.stack), th.item);
    }
  }

  /** A search starts strictly below its target, also when the bucket count it used is stale. */
  lemma HeadBelowTarget(c: Config, th: Thread)
    requires c.Valid() && StackInv(c, th)
    requires th.level < c.w && th.home == BucketNo(c.hash(th.item), th.level)
    ensures Less(c.BucketKey(HeadBucket(th)), Target(c, th))
  {
    if th.stack == [] {
      DummyBelowRegular(c.w, th.level, c.hash(th.item));
    } else {
      Pow2Monotone(c.capExp, c.w - 1);
      ParentBelowChild(c.w, Last(th.stack));
    }
  }

  // ---------------------------------------------------------------- what the others rely on

  /** What a step of another thread may do to the state, as seen from th. */
  ghost predicate Rely(s: State, s': State, th: Thread) {
    && (forall n | Linked(s, n) :: Linked(s', n) && s'.heap[n].key == s.heap[n].key)
    && (forall k | k in s.at :: k in s'.at && s'.at[k] == s.at[k])
    && (forall b | b in s.table :: b in s'.table && s'.table[b] == s.table[b])
    && s.exp <= s'.exp
    && s'.history == s.history + [s'.at.Keys]
    && (InSearch(th.pc) && th.node.Some? && th.node.value in s.heap ==>
          th.node.value in s'.heap && s'.heap[th.node.value] == s.heap[th.node.value] && !Linked(s', th.node.value))
    && (th.pc == Publish && th.stack != [] && Last(th.stack) !in s.table ==> Last(th.stack) !in s'.table)
  }

  lemma OutcomeStays(c: Config, s: State, s': State, th: Thread)
    requires Outcome(c, s, th) && s'.history == s.history + [s'.at.Keys]
    ensures Outcome(c, s', th)
  {
  }

  lemma RelyKeepsSearch(c: Config, s: State, s': State, th: Thread)
    requires ThreadInv(c, s, th) && Rely(s, s', th) && InSearch(th.pc)
    ensures ThreadInv(c, s', th)
  {
  }

  lemma RelyKeepsOthers(c: Config, s: State, s': State, th: Thread)
    requires ThreadInv(c, s, th) && Rely(s, s', th) && !InSearch(th.pc)
    ensures ThreadInv(c, s', th)
  {
    if th.pc == ReadSize || th.pc == CountItem || th.pc == Grow || th.pc == Done {
      OutcomeStays(c, s, s', th);
    }
  }

  lemma RelyKeeps(c: Config, s: State, s': State, th: Thread)
    requires ThreadInv(c, s, th) && Rely(s, s', th)
    ensures ThreadInv(c, s', th)
  {
    if InSearch(th.pc) {
      RelyKeepsSearch(c, s, s', th);
    } else {
      RelyKeepsOthers(c, s, s', th);
    }
  }

  // ---------------------------------------------------------------- changes of the list

  /** Nothing but node n, which is not linked, differs between the two states. */
  ghost predicate PrivateChange(s: State, s': State, n: Id) {
    && !Linked(s, n)
    && (forall m | m != n :: (m in s.heap <==> m in s'.heap) && (m in s.heap ==> s'.heap[m] == s.heap[m]))
    && s'.at == s.at && s'.table == s.table && s'.exp == s.exp
    && s'.history == s.history + [s'.at.Keys]
  }

  lemma PrivateChangeLinks(s: State, s': State, n: Id)
    requires IndexOk(s) && PrivateChange(s, s', n)
    ensures !Linked(s', n)
    ensures forall m :: Linked(s', m) <==> Linked(s, m)
    ensures forall m | Linked(s, m) :: s'.heap[m].key == s.heap[m].key
  {
  }

  lemma PrivateChangeKeepsShared(c: Config, s: State, s': State, n: Id)
    requires SharedInv(c, s) && PrivateChange(s, s', n)
    ensures SharedInv(c, s')
  {
    PrivateChangeLinks(s, s', n);
    forall k | k in s.at
      ensures LinkOk(s', k)
    {
      assert LinkOk(s, k);
    }
  }

  /** Linking node n for key k between the neighbours p and q of the list. */
  ghost predicate LinkChange(s: State, s': State, p: Id, n: Id, q: Option<Id>) {
    && Linked(s, p) && n in s.heap && n != p
    && s.heap[p].next == q && s.heap[n].next == q
    && s'.heap == s.heap[p := s.heap[p].(next := Some(n))]
    && s'.at == s.at[s.heap[n].key := n]
    && s'.table == s.table && s'.exp == s.exp
    && s'.history == s.history + [s'.at.Keys]
  }

  /** The new key lies strictly between its neighbours, so it was not in the list. */
  lemma KeyIsNew(c: Config, s: State, p: Id, k: Key)
    requires ListInv(c, s) && Linked(s, p) && Less(s.heap[p].key, k)
    requires s.heap[p].next.Some? ==> s.heap[p].next.value in s.heap && Less(k, s.heap[s.heap[p].next.value].key)
    ensures k !in s.at
  {
    assert LinkOk(s, s.heap[p].key);
  }

  /** LinkChange for a node whose key fits between p and q. */
  ghost predicate Insertion(c: Config, s: State, s': State, p: Id, n: Id, q: Option<Id>) {
    && ListInv(c, s) && LinkChange(s, s', p, n, q)
    && Less(s.heap[p].key, s.heap[n].key) && KeyOk(c, s.heap[n].key)
    && (q.Some? ==> q.value in s.heap && Less(s.heap[n].key, s.heap[q.value].key))
  }

  lemma LinkChangeKeepsNodes(s: State, s': State, p: Id, n: Id, q: Option<Id>)
    requires IndexOk(s) && LinkChange(s, s', p, n, q) && s.heap[n].key !in s.at
    ensures IndexOk(s')
    ensures forall m | Linked(s, m) :: Linked(s', m) && s'.heap[m].key == s.heap[m].key
    ensures forall m | Linked(s', m) :: m == n || Linked(s, m)
    ensures Linked(s', n)
  {
  }

  lemma InsertionKeepsNodes(c: Config, s: State, s': State, p: Id, n: Id, q: Option<Id>)
    requires Insertion(c, s, s', p, n, q)
    ensures s.heap[n].key !in s.at && !Linked(s, n)
    ensures IndexOk(s')
    ensures forall m | Linked(s, m) :: Linked(s', m) && s'.heap[m].key == s.heap[m].key
    ensures forall m | Linked(s', m) :: m == n || Linked(s, m)
    ensures Linked(s', n)
  {
    KeyIsNew(c, s, p, s.heap[n].key);
    LinkChangeKeepsNodes(s, s', p, n, q);
  }

  lemma NewNodeLinked(c: Config, s: State, s': State, p: Id, n: Id, q: Option<Id>)
    requires Insertion(c, s, s', p, n, q)
    ensures LinkOk(s', s.heap[n].key)
  {
    InsertionKeepsNodes(c, s, s', p, n, q);
    var k, kp := s.heap[n].key, s.heap[p].key;
    assert LinkOk(s, kp);
    forall i | i in s'.at && Less(k, i)
      ensures q.Some? && !Less(i, s.heap[q.value].key)
    {
      assert Less(kp, i);
    }
  }

  lemma PredecessorLinked(c: Config, s: State, s': State, p: Id, n: Id, q: Option<Id>)
    requires Insertion(c, s, s', p, n, q)
    ensures LinkOk(s', s.heap[p].key)
  {
    InsertionKeepsNodes(c, s, s', p, n, q);
    assert LinkOk(s, s.heap[p].key);
  }

  lemma OtherNodeLinked(c: Config, s: State, s': State, p: Id, n: Id, q: Option<Id>, j: Key)
    requires Insertion(c, s, s', p, n, q)
    requires j in s.at && j != s.heap[p].key
    ensures LinkOk(s', j)
  {
    InsertionKeepsNodes(c, s, s', p, n, q);
    var k, kp := s.heap[n].key, s.heap[p].key;
    assert LinkOk(s, j) && LinkOk(s, kp);
    assert Less(j, kp) || Less(kp, j);
    if Less(kp, j) {
      assert !Less(j, k);
    }
  }

  lemma InsertionKeepsList(c: Config, s: State, s': State, p: Id, n: Id, q: Option<Id>)
    requires Insertion(c, s, s', p, n, q)
    ensures ListInv(c, s')
  {
    InsertionKeepsNodes(c, s, s', p, n, q);
    forall j | j in s'.at
      ensures LinkOk(s', j)
    {
      if j == s.heap[n].key {
        NewNodeLinked(c, s, s', p, n, q);
      } else if j == s.heap[p].key {
        PredecessorLinked(c, s, s', p, n, q);
      } else {
        OtherNodeLinked(c, s, s', p, n, q, j);
      }
    }
  }

  // ---------------------------------------------------------------- the stepping thread

  /** A step that leaves the list, the table and the counters alone. */
  ghost predicate Quiet(s: State, s': State) {
    && s'.heap == s.heap && s'.at == s.at && s'.table == s.table && s'.exp == s.exp
    && s'.history == s.history + [s'.at.Keys]
  }

  lemma OwnIdle(c: Config, s: State, s': State, th: Thread, th': Thread)
    requires SharedInv(c, s) && ThreadInv(c, s, th) && Quiet(s, s')
    requires th'.pc == ReadExp && th'.stack == [] && th'.node == None && th'.start == s.Now()
    ensures ThreadInv(c, s', th')
  {
  }

  lemma OwnReadExp(c: Config, s: State, s': State, th: Thread, th': Thread)
    requires SharedInv(c, s) && ThreadInv(c, s, th) && Quiet(s, s') && th.pc == ReadExp
    requires var b := BucketNo(c.hash(th.item), s.exp);
             th' == th.(pc := GetBucket, home := b, level := s.exp, bucket := b)
    ensures ThreadInv(c, s', th')
  {
  }

  /** Bucket numbers are table indices. */
  lemma HomeInRange(c: Config, s: State, th: Thread)
    requires s.exp <= c.capExp && 1 <= th.level <= s.exp && th.home == BucketNo(c.hash(th.item), th.level)
    ensures th.home < c.Capacity()
  {
    DivModBounds(c.hash(th.item), Pow2(th.level));
    Pow2Monotone(th.level, c.capExp);
  }

  lemma OwnEnterList(c: Config, s: State, s': State, th: Thread, th0: Thread, head: Id)
    requires TableInv(c, s) && |s.history| > 0 && Quiet(s, s')
    requires StackInv(c, th) && th.node == None && 0 <= th.start < |s.history|
    requires 1 <= th.level <= s.exp && th.home == BucketNo(c.hash(th.item), th.level)
    requires HeadBucket(th) in s.table && s.table[HeadBucket(th)] == head
    requires th0 == EnterList(th, head)
    ensures ThreadInv(c, s', th0)
  {
  }

  lemma OwnGetBucket(c: Config, s: State, s': State, th: Thread, th': Thread)
    requires SharedInv(c, s) && ThreadInv(c, s, th) && Quiet(s, s') && th.pc == GetBucket
    requires if th.bucket in s.table then th' == EnterList(th, s.table[th.bucket])
             else th.bucket > 0 && th' == th.(stack := th.stack + [th.bucket], bucket := ParentBucket(th.bucket))
    ensures ThreadInv(c, s', th')
  {
    if th.bucket in s.table {
      OwnEnterList(c, s, s', th, th', s.table[th.bucket]);
    } else {
      HomeInRange(c, s, th);
      if th.stack != [] {
        ParentBucketBounds(Last(th.stack));
      }
    }
  }

  lemma OwnSearchStart(c: Config, s: State, s': State, th: Thread, th': Thread)
    requires IndexOk(s) && ThreadInv(c, s, th) && Quiet(s, s') && th.pc == SearchStart
    requires th' == th.(pc := LoadNext, prev := None, cur := Some(th.head), next := None, before := s.at)
    ensures ThreadInv(c, s', th')
  {
    assert Target(c, th') == Target(c, th);
  }

  lemma OwnRestart(c: Config, s: State, s': State, th: Thread, th': Thread)
    requires ThreadInv(c, s, th) && Quiet(s, s') && InSearch(th.pc)
    requires th' == th.(pc := SearchStart)
    ensures ThreadInv(c, s', th')
  {
    assert Target(c, th') == Target(c, th);
  }

  lemma OwnLoadNext(c: Config, s: State, s': State, th: Thread, th': Thread)
    requires ListInv(c, s) && |s.history| > 0 && s.history[s.Now()] == s.at.Keys
    requires ThreadInv(c, s, th) && Quiet(s, s') && th.pc == LoadNext
    requires th' == th.(pc := ReloadNext, next := s.heap[th.cur.value].next)
    ensures ThreadInv(c, s', th')
  {
    assert Target(c, th') == Target(c, th);
    assert LinkOk(s, s.heap[th.cur.value].key);
  }

  lemma OwnReloadNext(c: Config, s: State, s': State, th: Thread, th': Thread)
    requires ListInv(c, s) && |s.history| > 0 && s.history[s.Now()] == s.at.Keys
    requires ThreadInv(c, s, th) && Quiet(s, s') && th.pc == ReloadNext
    requires s.heap[th.cur.value].next == th.next && th' == th.(pc := CheckPrev, lin := s.Now())
    ensures ThreadInv(c, s', th')
  {
    assert Target(c, th') == Target(c, th);
    assert LinkOk(s, s.heap[th.cur.value].key);
  }

  /** The key of a linked node compares with the target as the order says. */
  lemma CursorCompares(c: Config, s: State, th: Thread)
    requires ListInv(c, s) && StackInv(c, th) && th.cur.Some? && Linked(s, th.cur.value)
    ensures var k := s.heap[th.cur.value].key; var cmp := Compare(k, Target(c, th));
            && (cmp < 0 <==> Less(k, Target(c, th)))
            && (cmp == 0 <==> k == Target(c, th))
            && (cmp > 0 <==> Less(Target(c, th), k))
  {
    TargetOk(c, th);
    assert KeyOk(c, s.heap[th.cur.value].key);
    KeyOkProper(c, s.heap[th.cur.value].key);
    CompareOrders(s.heap[th.cur.value].key, Target(c, th));
  }

  /** A search that stops at its first node would stop at the local head: it never does. */
  lemma StopsPastHead(c: Config, s: State, th: Thread)
    requires c.Valid() && SharedInv(c, s) && ThreadInv(c, s, th) && th.pc == CheckPrev
    requires !Less(s.heap[th.cur.value].key, Target(c, th))
    ensures th.prev.Some?
  {
    if th.prev == None {
      HeadBelowTarget(c, th);
    }
  }

  lemma OwnAdvance(c: Config, s: State, s': State, th: Thread, th': Thread)
    requires ThreadInv(c, s, th) && Quiet(s, s') && th.pc == CheckPrev
    requires Less(s.heap[th.cur.value].key, Target(c, th)) && th.next.Some?
    requires th' == th.(pc := LoadNext, prev := th.cur, cur := th.next)
    ensures ThreadInv(c, s', th')
  {
    assert Target(c, th') == Target(c, th);
  }

  lemma OwnFoundDummy(c: Config, s: State, s': State, th: Thread, th': Thread)
    requires SharedInv(c, s) && ThreadInv(c, s, th) && th.pc == CheckPrev && th.stack != []
    requires s'.at == s.at && s'.exp == s.exp && s'.history == s.history + [s'.at.Keys]
    requires s.heap[th.cur.value].key == Target(c, th)
    requires th' == th.(node := None, lin := s.Now(), pc := AwaitBucket)
    ensures ThreadInv(c, s', th')
  {
    assert Target(c, th') == Target(c, th);
  }

  lemma OwnFoundItem(c: Config, s: State, s': State, th: Thread, th': Thread)
    requires SharedInv(c, s) && ThreadInv(c, s, th) && th.pc == CheckPrev && th.stack == []
    requires s'.at == s.at && s'.exp == s.exp && s'.history == s.history + [s'.at.Keys]
    requires s.heap[th.cur.value].key == Target(c, th)
    requires th' == th.(node := None, lin := s.Now(), pc := Done, result := th.op == Find)
    ensures ThreadInv(c, s', th')
  {
    assert PresentThen(s, th', Target(c, th));
  }

  /** The search ended at a place where the target is not: (prev, cur) are its neighbours. */
  ghost predicate PlaceFound(c: Config, s: State, th: Thread, th1: Thread) {
    && th.pc == CheckPrev && th1 == th.(prev := th1.prev, cur := th1.cur, lin := th1.lin)
    && th1.prev.Some? && Linked(s, th1.prev.value) && Less(s.heap[th1.prev.value].key, Target(c, th))
    && (th1.cur.Some? ==> Linked(s, th1.cur.value) && Less(Target(c, th), s.heap[th1.cur.value].key))
    && AbsentThen(s, th1, Target(c, th))
  }

  lemma OwnMissing(c: Config, s: State, s': State, th: Thread, th1: Thread, th': Thread)
    requires SharedInv(c, s) && ThreadInv(c, s, th) && Quiet(s, s') && PlaceFound(c, s, th, th1)
    requires th.stack == [] && th.op == Find
    requires th' == th1.(pc := Done, result := false)
    ensures ThreadInv(c, s', th')
  {
    assert AbsentThen(s', th', Target(c, th));
  }

  lemma OwnAllocLater(c: Config, s: State, s': State, th: Thread, th1: Thread, th': Thread)
    requires ThreadInv(c, s, th) && Quiet(s, s') && PlaceFound(c, s, th, th1)
    requires !(th.stack == [] && th.op == Find) && th.node == None
    requires th' == th1.(pc := Alloc)
    ensures ThreadInv(c, s', th')
  {
  }

  lemma OwnPlace(c: Config, s: State, s': State, th: Thread, th1: Thread, th': Thread)
    requires ThreadInv(c, s, th) && Quiet(s, s') && PlaceFound(c, s, th, th1)
    requires th.node.Some?
    requires th' == th1.(pc := StoreNext)
    ensures ThreadInv(c, s', th')
  {
    assert Target(c, th') == Target(c, th);
    assert PlaceOk(c, s', th');
  }

  lemma OwnStoreNext(c: Config, s: State, s': State, th: Thread, th': Thread)
    requires IndexOk(s) && ThreadInv(c, s, th) && th.pc == StoreNext
    requires PrivateChange(s, s', th.node.value)
    requires s'.heap == s.heap[th.node.value := s.heap[th.node.value].(next := th.cur)]
    requires th' == th.(pc := CasLink)
    ensures ThreadInv(c, s', th')
  {
    PrivateChangeLinks(s, s', th.node.value);
    assert Target(c, th') == Target(c, th);
  }

  lemma OwnAlloc(c: Config, s: State, s': State, th: Thread, th': Thread, n: Id)
    requires IndexOk(s) && ThreadInv(c, s, th) && th.pc == Alloc && n !in s.heap
    requires PrivateChange(s, s', n)
    requires s'.heap == s.heap[n := Node(Target(c, th), None)]
    requires th' == th.(pc := SearchStart, node := Some(n))
    ensures ThreadInv(c, s', th')
  {
    PrivateChangeLinks(s, s', n);
    assert Target(c, th') == Target(c, th);
  }

  // ---------------------------------------------------------------- linking and publishing

  lemma LinkAdds(c: Config, s: State, s': State, th: Thread)
    requires ListInv(c, s) && ThreadInv(c, s, th) && th.pc == CasLink && th.prev.Some?
    requires Insertion(c, s, s', th.prev.value, th.node.value, th.cur)
    ensures Target(c, th) !in s.at && s'.at.Keys == s.at.Keys + {Target(c, th)}
  {
    KeyIsNew(c, s, th.prev.value, Target(c, th));
  }

  lemma OwnLinkItem(c: Config, s: State, s': State, th: Thread, th': Thread)
    requires ListInv(c, s) && |s.history| > 0 && s.history[s.Now()] == s.at.Keys
    requires ThreadInv(c, s, th) && th.pc == CasLink && th.stack == []
    requires th.prev.Some? && Insertion(c, s, s', th.prev.value, th.node.value, th.cur)
    requires th' == th.(pc := ReadSize, lin := s.Now(), result := true, node := None)
    ensures ThreadInv(c, s', th')
  {
    LinkAdds(c, s, s', th);
    assert AddedThen(s', th', Target(c, th));
  }

  lemma OwnLinkDummy(c: Config, s: State, s': State, th: Thread, th': Thread)
    requires ListInv(c, s) && TableInv(c, s) && |s.history| > 0 && s.history[s.Now()] == s.at.Keys
    requires ThreadInv(c, s, th) && th.pc == CasLink && th.stack != []
    requires th.prev.Some? && Insertion(c, s, s', th.prev.value, th.node.value, th.cur)
    requires th' == th.(pc := Publish)
    ensures ThreadInv(c, s', th')
  {
    KeyIsNew(c, s, th.prev.value, Target(c, th));
    assert Target(c, th') == Target(c, th);
  }

  /** When initBucket returns, the bucket it initialized heads the caller's search. */
  lemma PopHead(c: Config, th: Thread, th0: Thread)
    requires StackInv(c, th) && th.stack != []
    requires th0 == th.(stack := th.stack[..|th.stack| - 1])
    ensures StackInv(c, th0) && HeadBucket(th0) == Last(th.stack)
  {
    var n := |th.stack|;
    if n > 1 {
      assert th.stack[n - 1] == ParentBucket(th.stack[n - 2]);
    }
  }

  /** Only the table changes: it learns the head of one bucket. */
  ghost predicate TableChange(s: State, s': State, b: nat, n: Id) {
    && s'.heap == s.heap && s'.at == s.at && s'.table == s.table[b := n] && s'.exp == s.exp
    && (s'.history == s.history || s'.history == s.history + [s'.at.Keys])
  }

  lemma SameListKept(c: Config, s: State, s': State)
    requires ListInv(c, s) && s'.heap == s.heap && s'.at == s.at
    ensures ListInv(c, s')
  {
    forall k | k in s.at ensures LinkOk(s', k) {
      assert LinkOk(s, k);
    }
  }

  lemma TableChangeKeepsShared(c: Config, s: State, s': State, b: nat, n: Id)
    requires SharedInv(c, s) && TableChange(s, s', b, n)
    requires b < c.Capacity() && c.BucketKey(b) in s.at && s.at[c.BucketKey(b)] == n
    ensures SharedInv(c, s')
  {
    SameListKept(c, s, s');
  }

  lemma QuietKeepsShared(c: Config, s: State, s': State)
    requires SharedInv(c, s)
    requires s'.heap == s.heap && s'.at == s.at && s'.table == s.table && 1 <= s'.exp <= c.capExp
    requires s'.history == s.history + [s'.at.Keys]
    ensures SharedInv(c, s')
  {
    SameListKept(c, s, s');
  }

  lemma OwnLeaveInit(c: Config, s: State, s1: State, s': State, th: Thread, th': Thread, head: Id)
    requires TableInv(c, s1) && |s1.history| > 0 && Quiet(s1, s')
    requires ThreadInv(c, s, th) && (th.pc == Publish || th.pc == AwaitBucket)
    requires |s.history| <= |s1.history| && s.exp <= s1.exp
    requires Last(th.stack) in s1.table && s1.table[Last(th.stack)] == head
    requires th' == LeaveInit(th, head)
    ensures ThreadInv(c, s', th')
  {
    var th0 := th.(stack := th.stack[..|th.stack| - 1], node := None);
    PopHead(c, th, th.(stack := th.stack[..|th.stack| - 1]));
    OwnEnterList(c, s1, s', th0, th', head);
  }

  lemma OwnReadSize(c: Config, s: State, s': State, th: Thread, th': Thread)
    requires ThreadInv(c, s, th) && Quiet(s, s') && th.pc == ReadSize
    requires th' == th.(pc := CountItem, sz := s.exp)
    ensures ThreadInv(c, s', th')
  {
    OutcomeStays(c, s, s', th);
  }

  lemma SmallerExponent(c: Config, sz: nat)
    requires Pow2(sz) < c.Capacity()
    ensures sz < c.capExp
  {
    if sz >= c.capExp {
      Pow2Monotone(c.capExp, sz);
    }
  }

  lemma OwnFinish(c: Config, s: State, s': State, th: Thread, th': Thread)
    requires ThreadInv(c, s, th) && (th.pc == CountItem || th.pc == Grow)
    requires s'.history == s.history + [s'.at.Keys] && s'.exp >= s.exp
    requires th' == th.(pc := Done)
    ensures ThreadInv(c, s', th')
  {
    OutcomeStays(c, s, s', th);
  }

  lemma OwnWillGrow(c: Config, s: State, s': State, th: Thread, th': Thread)
    requires ThreadInv(c, s, th) && Quiet(s, s') && th.pc == CountItem
    requires th' == th.(pc := Grow) && th.sz < c.capExp
    ensures ThreadInv(c, s', th')
  {
    OutcomeStays(c, s, s', th);
  }

  lemma OwnDone(c: Config, s: State, s': State, th: Thread, th': Thread)
    requires ThreadInv(c, s, th) && Quiet(s, s') && th.pc == Done
    requires th' == th.(pc := Idle)
    ensures ThreadInv(c, s', th')
  {
  }
}
