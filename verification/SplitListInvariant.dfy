/** What every step of the split-ordered map keeps. */
module SplitListInvariant {
  import opened Options
  import opened PowerOfTwo
  import opened SplitOrder
  import opened SplitListMachine

  // ---------------------------------------------------------------- the order of keys

  ghost predicate Less(p: Key, q: Key) {
    p.hash < q.hash || (p.hash == q.hash && p.item < q.item)
  }

  /** Dummies carry no user key. */
  ghost predicate Proper(k: Key) {
    IsDummy(k) ==> k.item == 0
  }

  /** Comparator::compare decides a total order in which only equal keys compare as 0. */
  lemma CompareOrders(p: Key, q: Key)
    requires Proper(p) && Proper(q)
    ensures Compare(p, q) < 0 <==> Less(p, q)
    ensures Compare(p, q) == 0 <==> p == q
    ensures Compare(p, q) > 0 <==> Less(q, p)
  {
  }

  // ---------------------------------------------------------------- shared state

  ghost predicate Linked(s: State, n: Id) {
    n in s.heap && s.heap[n].key in s.at && s.at[s.heap[n].key] == n
  }

  /** The node of key k is linked to that of the next greater key. */
  ghost predicate LinkOk(s: State, k: Key)
    requires k in s.at && s.at[k] in s.heap
  {
    match s.heap[s.at[k]].next
    case None => forall j | j in s.at :: !Less(k, j)
    case Some(m) =>
      && Linked(s, m)
      && Less(k, s.heap[m].key)
      && forall j | j in s.at && Less(k, j) :: !Less(j, s.heap[m].key)
  }

  ghost predicate KeyOk(c: Config, k: Key) {
    if IsDummy(k) then
      exists b: nat :: b < c.Capacity() && k == c.BucketKey(b)
    else
      k == c.ItemKey(k.item)
  }

  /** The index names, for each key, a node with that key. */
  ghost predicate IndexOk(s: State) {
    forall k | k in s.at :: s.at[k] in s.heap && s.heap[s.at[k]].key == k
  }

  ghost predicate ListInv(c: Config, s: State) {
    && IndexOk(s)
    && (forall k {:trigger LinkOk(s, k)} | k in s.at && s.at[k] in s.heap :: LinkOk(s, k))
    && (forall k {:trigger KeyOk(c, k)} | k in s.at :: KeyOk(c, k))
  }

  ghost predicate TableInv(c: Config, s: State) {
    && 0 in s.table
    && forall b | b in s.table :: b < c.Capacity() && c.BucketKey(b) in s.at && s.at[c.BucketKey(b)] == s.table[b]
  }

  ghost predicate SharedInv(c: Config, s: State) {
    && ListInv(c, s)
    && TableInv(c, s)
    && 1 <= s.exp <= c.capExp
    && |s.history| > 0 && s.history[s.Now()] == s.at.Keys
  }

  // ---------------------------------------------------------------- threads

  ghost predicate StackInv(c: Config, th: Thread) {
    && (forall i | 0 <= i < |th.stack| :: 0 < th.stack[i] < c.Capacity())
    && (forall i | 0 <= i < |th.stack| - 1 :: th.stack[i + 1] == ParentBucket(th.stack[i]))
    && (th.stack != [] ==> th.stack[0] == th.home)
  }

  /** The bucket whose dummy the current search starts from. */
  ghost function HeadBucket(th: Thread): nat
    requires th.stack != [] ==> Last(th.stack) > 0
  {
    if th.stack == [] then th.home else ParentBucket(Last(th.stack))
  }

  ghost predicate HeadOk(c: Config, s: State, th: Thread)
    requires StackInv(c, th)
  {
    c.BucketKey(HeadBucket(th)) in s.at && s.at[c.BucketKey(HeadBucket(th))] == th.head
  }

  /** The thread's own node is allocated for the target and not linked. */
  ghost predicate NodeOk(c: Config, s: State, th: Thread) {
    th.node.Some? ==>
      && th.node.value in s.heap
      && s.heap[th.node.value].key == Target(c, th)
      && !Linked(s, th.node.value)
  }

  ghost predicate InSearch(pc: Pc) {
    pc.SearchStart? || pc.LoadNext? || pc.ReloadNext? || pc.CheckPrev? || pc.StoreNext? || pc.CasLink?
  }

  /** The search stands at a linked node cur; everything up to prev is below the target. */
  ghost predicate CursorOk(c: Config, s: State, th: Thread) {
    && th.cur.Some? && Linked(s, th.cur.value)
    && match th.prev
       case None => th.cur.value == th.head
       case Some(p) =>
         && Linked(s, p)
         && Less(s.heap[p].key, Target(c, th))
         && Less(s.heap[p].key, s.heap[th.cur.value].key)
  }

  ghost predicate NextOk(s: State, th: Thread)
    requires th.cur.Some? && th.cur.value in s.heap
  {
    th.next.Some? ==> Linked(s, th.next.value) && Less(s.heap[th.cur.value].key, s.heap[th.next.value].key)
  }

  /** At the recorded instant of the call, the key was not in the list. */
  ghost predicate AbsentThen(s: State, th: Thread, k: Key) {
    th.start <= th.lin < |s.history| && 0 <= th.lin && k !in s.history[th.lin]
  }

  ghost predicate PresentThen(s: State, th: Thread, k: Key) {
    th.start <= th.lin < |s.history| && 0 <= th.lin && k in s.history[th.lin]
  }

  /** At the recorded instant of the call, its item was added and nothing else changed. */
  ghost predicate AddedThen(s: State, th: Thread, k: Key) {
    && AbsentThen(s, th, k)
    && th.lin + 1 < |s.history|
    && s.history[th.lin + 1] == s.history[th.lin] + {k}
  }

  ghost predicate Outcome(c: Config, s: State, th: Thread) {
    var k := c.ItemKey(th.item);
    match th.op
    case Find => if th.result then PresentThen(s, th, k) else AbsentThen(s, th, k)
    case _ => if th.result then AddedThen(s, th, k) else PresentThen(s, th, k)
  }

  /** The search is over: the target's place is between prev and cur. */
  ghost predicate PlaceOk(c: Config, s: State, th: Thread) {
    && th.node.Some?
    && th.prev.Some? && Linked(s, th.prev.value) && Less(s.heap[th.prev.value].key, Target(c, th))
    && (th.cur.Some? ==> Linked(s, th.cur.value) && Less(Target(c, th), s.heap[th.cur.value].key))
  }

  ghost predicate PcInv(c: Config, s: State, th: Thread)
    requires StackInv(c, th)
  {
    match th.pc
    case Idle => true
    case ReadExp => th.stack == []
    case GetBucket => th.bucket == HeadBucket(th)
    case Alloc => HeadOk(c, s, th) && th.node == None && (th.stack == [] ==> th.op != Find)
    case SearchStart => HeadOk(c, s, th)
    case LoadNext => HeadOk(c, s, th) && CursorOk(c, s, th)
    case ReloadNext => HeadOk(c, s, th) && CursorOk(c, s, th) && NextOk(s, th)
    case CheckPrev =>
      && HeadOk(c, s, th) && CursorOk(c, s, th) && NextOk(s, th)
      && (th.next == None && Less(s.heap[th.cur.value].key, Target(c, th)) ==> AbsentThen(s, th, Target(c, th)))
    case StoreNext => HeadOk(c, s, th) && PlaceOk(c, s, th)
    case CasLink => HeadOk(c, s, th) && PlaceOk(c, s, th) && th.node.value in s.heap
        && s.heap[th.node.value].next == th.cur
    case Publish =>
      && th.stack != [] && th.node.Some? && Last(th.stack) !in s.table
      && Target(c, th) in s.at && s.at[Target(c, th)] == th.node.value
    case AwaitBucket => th.stack != [] && Target(c, th) in s.at
    case ReadSize => th.stack == [] && th.op != Find && th.result && Outcome(c, s, th)
    case CountItem => 1 <= th.sz <= s.exp && th.stack == [] && th.op != Find && th.result && Outcome(c, s, th)
    case Grow => th.stack == [] && th.op != Find && th.result && Outcome(c, s, th) && 1 <= th.sz < c.capExp
    case Done => th.stack == [] && Outcome(c, s, th)
  }

  ghost predicate ThreadInv(c: Config, s: State, th: Thread) {
    && StackInv(c, th)
    && (th.pc != Idle && th.pc != ReadExp ==>
          1 <= th.level <= s.exp && th.home == BucketNo(c.hash(th.item), th.level))
    && (th.pc != Idle ==> 0 <= th.start < |s.history|)
    && (InSearch(th.pc) ==> NodeOk(c, s, th) && (th.op == Find && th.stack == [] ==> th.node == None))
    && (InSearch(th.pc) && (th.op == Insert || th.stack != []) ==> th.node.Some?)
    && (!InSearch(th.pc) && th.pc != Publish ==> th.node == None)
    && PcInv(c, s, th)
  }

  ghost predicate NodesDistinct(s: State) {
    forall t, u | t in s.threads && u in s.threads && t != u && s.threads[t].node.Some? && s.threads[u].node.Some? ::
      s.threads[t].node.value != s.threads[u].node.value
  }

  /** Thread t is about to publish the dummy of bucket b in the table. */
  ghost predicate Publishing(s: State, t: Tid, b: nat) {
    && t in s.threads && s.threads[t].pc == Publish
    && s.threads[t].stack != [] && Last(s.threads[t].stack) == b
  }

  /** A linked dummy that the table does not know has a thread about to publish it. */
  ghost predicate PublishInv(c: Config, s: State) {
    forall b: nat | b < c.Capacity() && c.BucketKey(b) in s.at && b !in s.table ::
      exists t :: Publishing(s, t, b)
  }

  ghost predicate Inv(c: Config, s: State) {
    && SharedInv(c, s)
    && (forall t | t in s.threads :: ThreadInv(c, s, s.threads[t]))
    && NodesDistinct(s)
    && PublishInv(c, s)
  }
}
