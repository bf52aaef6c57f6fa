/** The split-ordered map over the insert-only list, as a machine that performs one shared load,
    store or compare-and-swap at a time on behalf of any number of threads. */
module SplitListMachine {
  import opened Options
  import opened PowerOfTwo
  import opened SplitOrder

  // ---------------------------------------------------------------- keys

  /** A list key: the hash word, odd for items and even for dummies, and the user's key. */
  datatype Key = Key(hash: nat, item: int)

  predicate IsDummy(k: Key) {
    k.hash % 2 == 0
  }

  /** Comparator::compare */
  function Compare(p: Key, q: Key): int {
    var byHash := if p.hash < q.hash then -1 else if p.hash > q.hash then 1 else 0;
    if byHash != 0 || IsDummy(p) || IsDummy(q) then
      byHash
    else
      if p.item < q.item then -1 else if p.item > q.item then 1 else 0
  }

  // ---------------------------------------------------------------- state

  type Id = nat

  type Tid = nat

  /** Word width, hash functor, log2 of the table capacity, and load factor. */
  datatype Config = Config(w: nat, hash: int -> nat, capExp: nat, load: nat)
  {
    ghost predicate Valid() {
      // Bucket numbers are narrower than the hash word, and there are at least two buckets.
      && 1 <= capExp < w
      && forall item :: hash(item) < Pow2(w)
    }

    function Capacity(): nat {
      Pow2(capExp)
    }

    function ItemKey(item: int): Key {
      Key(RegularKey(w, hash(item)), item)
    }

    function BucketKey(b: nat): Key {
      Key(DummyKey(w, b), 0)
    }
  }

  datatype Node = Node(key: Key, next: Option<Id>)

  datatype Op = Insert | Find | Ensure

  datatype Pc =
    | Idle
    | ReadExp       // getBucketNo loads the bucket count
    | GetBucket     // load the bucket's table entry
    | Alloc         // allocate the node to insert
    | SearchStart   // try_again: start from the caller's copy of the bucket head
    | LoadNext      // pNext = pCur->m_pNext
    | ReloadNext    // is pCur->m_pNext still pNext?
    | CheckPrev     // is *pPrev still pCur? then compare keys
    | StoreNext     // pNode->m_pNext = pos.pCur
    | CasLink       // CAS( pos.ppPrev, pos.pCur, pNode )
    | Publish       // setBucket of the bucket being initialized
    | AwaitBucket   // another thread linked the dummy: wait for its setBucket
    | ReadSize      // incItemCount: sz = m_nBucketCountExp2
    | CountItem     // ++m_nItemCount
    | Grow          // CAS( m_nBucketCountExp2, sz, sz + 1 )
    | Done

  /** A thread inside an operation.
      home, level: the operation's bucket and the (possibly stale) exponent it was computed with;
      stack: the buckets that nested initBucket calls are working on, innermost last;
      head, prev, cur, next: the search; prev == None stands for the address of the local head;
      result: inserted (Insert, Ensure) or found (Find);
      start, lin: instants of the history, when the call began and when it took effect;
      before: the linked nodes when the search last started. */
  datatype Thread = Thread(
    pc: Pc, op: Op, item: int, home: nat, level: nat, bucket: nat, stack: seq<nat>,
    node: Option<Id>, head: Id, prev: Option<Id>, cur: Option<Id>, next: Option<Id>,
    sz: nat, result: bool, start: int, lin: int, before: map<Key, Id>)

  /** at indexes the nodes linked into the list by key; history holds the keys that were linked
      at each past instant, the present one last. */
  datatype State = State(
    heap: map<Id, Node>, at: map<Key, Id>, table: map<nat, Id>, exp: nat, count: nat,
    threads: map<Tid, Thread>, history: seq<set<Key>>)
  {
    function Now(): int {
      |history| - 1
    }

    /** The state after a step: thread t becomes th, and the instant is recorded. */
    function Then(t: Tid, th: Thread): State {
      this.(threads := threads[t := th], history := history + [at.Keys])
    }
  }

  /** What the environment chooses: the operation to start and the address of a new node. */
  datatype Choice = Choice(op: Op, item: int, address: Id)

  // ---------------------------------------------------------------- steps

  /** An insertion that has linked its item. */
  ghost predicate Counting(th: Thread) {
    (th.pc == ReadSize || th.pc == CountItem || th.pc == Grow || th.pc == Done) && th.op != Find && th.result
  }

  /** An insertion whose item is linked but not yet counted. */
  predicate Uncounted(th: Thread) {
    th.pc == ReadSize || th.pc == CountItem
  }

  /** In one pass of the search, or about to use its result. */
  predicate Attempting(pc: Pc) {
    pc.LoadNext? || pc.ReloadNext? || pc.CheckPrev? || pc.StoreNext? || pc.CasLink?
  }

  /** What every step does: it moves one thread, which stays in its call until it returns; it records
      the instant; it changes the list only where a compare-and-swap succeeds; and it counts and grows
      only at the two steps of incItemCount. */
  ghost predicate Progress(s: State, t: Tid, th: Thread, s': State) {
    && t in s'.threads && s'.threads == s.threads[t := s'.threads[t]]
    && s'.history == s.history + [s'.at.Keys]
    && var th' := s'.threads[t];
       && (if th.pc == Idle then th'.pc == ReadExp && th'.start == s.Now()
           else th'.start == th.start && th'.op == th.op && th'.item == th.item)
       && s'.count == (if th.pc == CountItem then s.count + 1 else s.count)
       && s'.exp == (if th.pc == Grow && s.exp == th.sz then s.exp + 1 else s.exp)
       && (Attempting(th'.pc) ==>
             (Attempting(th.pc) && th'.before == th.before) || (th.pc == SearchStart && th'.before == s.at))
       && (th.pc == Alloc || th.pc == CheckPrev || th.pc == StoreNext || th.pc == CasLink || s'.heap == s.heap)
       && (th'.pc == Grow ==> th.pc == CountItem)
       && (th'.pc == CountItem ==> th.pc == ReadSize && th'.sz == s.exp)
       && (Uncounted(th') <==> th.pc == ReadSize || (th.pc == CasLink && th'.pc == ReadSize))
       && (Counting(th) ==> Counting(th') || (th.pc == Done && th'.pc == Idle))
       && (th.pc == Idle || th.pc == ReadExp || (th'.level == th.level && th'.home == th.home))
       && (th.pc == ReadExp ==> th'.level == s.exp)
       && (Counting(th') && !Counting(th) ==> th.pc == CasLink && th.stack == [] && th'.pc == ReadSize)
       && if th.pc == CasLink && th.prev.Some? && th'.pc != SearchStart then
            && th.node.Some? && th.node.value in s.heap
            && th.prev.value in s.heap && s.heap[th.prev.value].next == th.cur
            && s'.at == s.at[s.heap[th.node.value].key := th.node.value]
            && th'.pc == (if th.stack == [] then ReadSize else Publish)
          else
            s'.at == s.at
  }

  function Last(s: seq<nat>): nat
    requires s != []
  {
    s[|s| - 1]
  }

  /** The key the current search looks for: the operation's, or that of a dummy to insert. */
  function Target(c: Config, th: Thread): Key {
    if th.stack == [] then c.ItemKey(th.item) else c.BucketKey(Last(th.stack))
  }

  /** The bucket head is known: insertions allocate their node first, look-ups search at once. */
  function EnterList(th: Thread, head: Id): Thread {
    th.(pc := if th.stack == [] && th.op != Insert then SearchStart else Alloc, head := head, node := None)
  }

  /** initBucket returns the head of the innermost bucket to its caller. */
  function LeaveInit(th: Thread, head: Id): Thread
    requires th.stack != []
  {
    EnterList(th.(stack := th.stack[..|th.stack| - 1]), head)
  }

  /** freeNode of a node that was not linked */
  function Free(heap: map<Id, Node>, node: Option<Id>): map<Id, Node> {
    if node.Some? then heap - {node.value} else heap
  }

  /** search returned true */
  function Found(s: State, t: Tid, th: Thread): (s': State)
    ensures th.pc == CheckPrev ==> Progress(s, t, th, s')
  {
    var s' := s.(heap := Free(s.heap, th.node));
    var th' := th.(node := None, lin := s.Now());
    if th.stack != [] then
      s'.Then(t, th'.(pc := AwaitBucket))
    else
      s'.Then(t, th'.(pc := Done, result := th.op == Find))
  }

  /** search returned false with position (prev, cur) */
  function NotFound(th: Thread): (th': Thread)
    ensures th' == th.(pc := th'.pc, result := th'.result)
    ensures th'.pc == Done || th'.pc == Alloc || th'.pc == StoreNext
    ensures th'.pc == Done ==> !th'.result && th.op == Find
  {
    if th.stack == [] && th.op == Find then
      th.(pc := Done, result := false)
    else if th.node == None then
      th.(pc := Alloc)
    else
      th.(pc := StoreNext)
  }

  function DoIdle(s: State, t: Tid, th: Thread, ch: Choice): (s': State)
    ensures th.pc == Idle ==> Progress(s, t, th, s')
    ensures t in s'.threads && s'.threads[t].op == ch.op && s'.threads[t].item == ch.item
  {
    s.Then(t, Thread(ReadExp, ch.op, ch.item, 0, 0, 0, [], None, 0, None, None, None, 0, false, s.Now(), 0, map[]))
  }

  function DoReadExp(c: Config, s: State, t: Tid, th: Thread): (s': State)
    ensures th.pc == ReadExp ==> Progress(s, t, th, s')
  {
    var b := BucketNo(c.hash(th.item), s.exp);
    s.Then(t, th.(pc := GetBucket, home := b, level := s.exp, bucket := b))
  }

  function DoGetBucket(s: State, t: Tid, th: Thread): (s': State)
    ensures th.pc == GetBucket ==> Progress(s, t, th, s')
  {
    if th.bucket in s.table then
      s.Then(t, EnterList(th, s.table[th.bucket]))
    else if th.bucket > 0 then
      s.Then(t, th.(stack := th.stack + [th.bucket], bucket := ParentBucket(th.bucket)))
    else
      s.Then(t, th)
  }

  function DoAlloc(c: Config, s: State, t: Tid, th: Thread, n: Id): (s': State)
    ensures th.pc == Alloc ==> Progress(s, t, th, s')
  {
    s.(heap := s.heap[n := Node(Target(c, th), None)]).Then(t, th.(pc := SearchStart, node := Some(n)))
  }

  function DoSearchStart(s: State, t: Tid, th: Thread): (s': State)
    ensures th.pc == SearchStart ==> Progress(s, t, th, s')
  {
    s.Then(t, th.(pc := LoadNext, prev := None, cur := Some(th.head), next := None, before := s.at))
  }

  function DoLoadNext(s: State, t: Tid, th: Thread): (s': State)
    requires th.cur.Some? && th.cur.value in s.heap
    ensures th.pc == LoadNext ==> Progress(s, t, th, s')
  {
    s.Then(t, th.(pc := ReloadNext, next := s.heap[th.cur.value].next))
  }

  function DoReloadNext(s: State, t: Tid, th: Thread): (s': State)
    requires th.cur.Some? && th.cur.value in s.heap
    ensures th.pc == ReloadNext ==> Progress(s, t, th, s')
  {
    if s.heap[th.cur.value].next == th.next then
      s.Then(t, th.(pc := CheckPrev, lin := s.Now()))
    else
      s.Then(t, th.(pc := SearchStart))
  }

  /** A search moves on or ends without having found its target. */
  predicate SearchMoves(th: Thread, th': Thread) {
    && th'.start == th.start && th'.op == th.op && th'.item == th.item && th'.before == th.before
    && th'.level == th.level && th'.home == th.home
    && (th'.pc == LoadNext || th'.pc == StoreNext || th'.pc == Alloc || th'.pc == Done)
    && (th'.pc == Done ==> !th'.result && th.op == Find)
  }

  lemma SearchProgress(s: State, t: Tid, th: Thread, th': Thread)
    requires th.pc == CheckPrev && SearchMoves(th, th')
    ensures Progress(s, t, th, s.Then(t, th'))
  {
  }

  /** The key at cur is not the target: the search ends before cur or behind it, or moves on. */
  function Passed(s: State, th: Thread, cmp: int): (th': Thread)
    ensures SearchMoves(th, th')
  {
    if cmp > 0 then
      NotFound(th.(lin := s.Now()))
    else if th.next == None then
      NotFound(th.(prev := th.cur, cur := None))
    else
      th.(pc := LoadNext, prev := th.cur, cur := th.next)
  }

  /** prev still leads to cur: compare the keys. */
  function Compared(c: Config, s: State, t: Tid, th: Thread): (s': State)
    requires th.cur.Some? && th.cur.value in s.heap
    ensures th.pc == CheckPrev ==> Progress(s, t, th, s')
  {
    var cmp := Compare(s.heap[th.cur.value].key, Target(c, th));
    if cmp == 0 then
      Found(s, t, th)
    else
      var th' := Passed(s, th, cmp);
      if th.pc == CheckPrev then SearchProgress(s, t, th, th'); s.Then(t, th') else s.Then(t, th')
  }

  function DoCheckPrev(c: Config, s: State, t: Tid, th: Thread): (s': State)
    requires th.cur.Some? && th.cur.value in s.heap
    requires th.prev.Some? ==> th.prev.value in s.heap
    ensures th.pc == CheckPrev ==> Progress(s, t, th, s')
  {
    var stored := if th.prev == None then Some(th.head) else s.heap[th.prev.value].next;
    if stored != th.cur then s.Then(t, th.(pc := SearchStart)) else Compared(c, s, t, th)
  }

  function DoStoreNext(s: State, t: Tid, th: Thread): (s': State)
    requires th.node.Some? && th.node.value in s.heap
    ensures th.pc == StoreNext ==> Progress(s, t, th, s')
  {
    var n := th.node.value;
    s.(heap := s.heap[n := s.heap[n].(next := th.cur)]).Then(t, th.(pc := CasLink))
  }

  /** The swap succeeded: an item is counted next, a dummy is published next. */
  function Inserted(s: State, th: Thread): Thread {
    if th.stack == [] then
      th.(pc := ReadSize, lin := s.Now(), result := true, node := None)
    else
      th.(pc := Publish)
  }

  function DoCasLink(s: State, t: Tid, th: Thread): (s': State)
    requires th.node.Some? && th.node.value in s.heap
    requires th.prev.Some? ==> th.prev.value in s.heap
    ensures th.pc == CasLink ==> Progress(s, t, th, s')
  {
    if th.prev == None then
      // ppPrev is the address of the local head: the swap would change nothing shared.
      if Some(th.head) == th.cur then
        s.Then(t, Inserted(s, th).(head := th.node.value))
      else
        s.Then(t, th.(pc := SearchStart))
    else if s.heap[th.prev.value].next == th.cur then
      var p := th.prev.value;
      s.(heap := s.heap[p := s.heap[p].(next := th.node)],
         at := s.at[s.heap[th.node.value].key := th.node.value]).Then(t, Inserted(s, th))
    else
      s.Then(t, th.(pc := SearchStart))
  }

  function DoPublish(s: State, t: Tid, th: Thread): (s': State)
    requires th.node.Some? && th.stack != []
    ensures th.pc == Publish ==> Progress(s, t, th, s')
  {
    s.(table := s.table[Last(th.stack) := th.node.value]).Then(t, LeaveInit(th, th.node.value))
  }

  function DoAwaitBucket(s: State, t: Tid, th: Thread): (s': State)
    requires th.stack != []
    ensures th.pc == AwaitBucket ==> Progress(s, t, th, s')
  {
    if Last(th.stack) in s.table then
      s.Then(t, LeaveInit(th, s.table[Last(th.stack)]))
    else
      s.Then(t, th)
  }

  function DoReadSize(s: State, t: Tid, th: Thread): (s': State)
    ensures th.pc == ReadSize ==> Progress(s, t, th, s')
  {
    s.Then(t, th.(pc := CountItem, sz := s.exp))
  }

  /** The test of incItemCount. */
  predicate Crowded(c: Config, count: nat, sz: nat) {
    count / Pow2(sz) > c.load && Pow2(sz) < c.Capacity()
  }

  function DoCountItem(c: Config, s: State, t: Tid, th: Thread): (s': State)
    ensures th.pc == CountItem ==> Progress(s, t, th, s')
  {
    s.(count := s.count + 1).Then(t, th.(pc := if Crowded(c, s.count + 1, th.sz) then Grow else Done))
  }

  function DoGrow(s: State, t: Tid, th: Thread): (s': State)
    ensures th.pc == Grow ==> Progress(s, t, th, s')
  {
    s.(exp := if s.exp == th.sz then th.sz + 1 else s.exp).Then(t, th.(pc := Done))
  }

  function DoDone(s: State, t: Tid, th: Thread): (s': State)
    ensures th.pc == Done ==> Progress(s, t, th, s')
  {
    s.Then(t, th.(pc := Idle))
  }

  /** The pointers a step follows are valid, and the address of a new node is unused. */
  predicate Enabled(s: State, t: Tid, ch: Choice) {
    && t in s.threads
    && var th := s.threads[t];
       match th.pc
       case Alloc => ch.address !in s.heap
       case LoadNext | ReloadNext => th.cur.Some? && th.cur.value in s.heap
       case CheckPrev => th.cur.Some? && th.cur.value in s.heap && (th.prev.Some? ==> th.prev.value in s.heap)
       case StoreNext => th.node.Some? && th.node.value in s.heap
       case CasLink => th.node.Some? && th.node.value in s.heap && (th.prev.Some? ==> th.prev.value in s.heap)
       case Publish => th.node.Some? && th.stack != []
       case AwaitBucket => th.stack != []
       case _ => true
  }

  /** One step of thread t. */
  function Exec(c: Config, s: State, t: Tid, ch: Choice): (s': State)
    requires Enabled(s, t, ch)
    ensures Progress(s, t, s.threads[t], s')
    ensures s.threads[t].pc == Idle ==> s'.threads[t].op == ch.op && s'.threads[t].item == ch.item
  {
    var th := s.threads[t];
    match th.pc
    case Idle => DoIdle(s, t, th, ch)
    case ReadExp => DoReadExp(c, s, t, th)
    case GetBucket => DoGetBucket(s, t, th)
    case Alloc => DoAlloc(c, s, t, th, ch.address)
    case SearchStart => DoSearchStart(s, t, th)
    case LoadNext => DoLoadNext(s, t, th)
    case ReloadNext => DoReloadNext(s, t, th)
    case CheckPrev => DoCheckPrev(c, s, t, th)
    case StoreNext => DoStoreNext(s, t, th)
    case CasLink => DoCasLink(s, t, th)
    case Publish => DoPublish(s, t, th)
    case AwaitBucket => DoAwaitBucket(s, t, th)
    case ReadSize => DoReadSize(s, t, th)
    case CountItem => DoCountItem(c, s, t, th)
    case Grow => DoGrow(s, t, th)
    case Done => DoDone(s, t, th)
  }

  /** init: the list holds the dummy of bucket 0 and the table knows it; two buckets. */
  ghost predicate Init(c: Config, s: State) {
    && s.heap == map[0 := Node(c.BucketKey(0), None)]
    && s.at == map[c.BucketKey(0) := 0]
    && s.table == map[0 := 0]
    && s.exp == 1 && s.count == 0
    && (forall t | t in s.threads :: s.threads[t].pc == Idle && s.threads[t].stack == [] && s.threads[t].node == None)
    && s.history == [s.at.Keys]
  }

  /** A step of thread t, for which the environment chooses ch: the beginning of a call, when the thread is idle. */
  datatype Event = Event(t: Tid, ch: Choice)
}
