/** The concurrent bag with one adder and one remover, one shared access at a time. The adder fills the
    block at the head of its list; the remover has no list of its own and only steals. */
module BagMachine {
  import opened Options

  type Id = nat

  type Value = int

  /** Slots of a block, the value that marks an empty slot, the number of thread ids, and the adder's id. */
  datatype Config = Config(slots: nat, sentinel: Value, threads: nat, adder: nat)
  {
    predicate Valid() {
      slots > 0 && threads > 1 && adder < threads
    }
  }

  /** next carries two mark bits; notified is the remover's bit of m_notifyAdd. */
  datatype Block = Block(next: Option<Id>, mark1: bool, mark2: bool, data: seq<Value>, notified: bool)

  datatype AdderPc =
    | Ready
    | Check(item: Value)         // the block is full, or the slot at head is free, or try the next slot
    | PublishBlock(item: Value)  // m_pGlobalHeadBlock = block
    | Notify(item: Value)        // NotifyAll
    | Write(item: Value)         // m_data[head] = item

  datatype RemoverPc =
    | Away
    | Try                        // TryStealBlock: where to start
    | LoadHead                   // block = m_pGlobalHeadBlock[m_nStealIndex]
    | LoadNext                   // NextStealBlock: next = block->m_pNext
    | Decide(next: Option<Id>, mark1: bool, mark2: bool)
    | SetMark2                   // CAS( m_pStealPrev->m_pNext, block, block with mark 2 )
    | SetMark1                   // Mark1Block( block )
    | Unlink(next: Option<Id>, mark2: bool) // CAS( m_pStealPrev->m_pNext, block, next )
    | ClearNext(next: Option<Id>)           // block->m_pNext = NULL with mark 1
    | NextBlock(next: Option<Id>)           // m_pStealBlock = next
    | CheckNotify                // NotifyStart or NotifyCheck
    | ScanSlot                   // result = m_data[head]
    | Take(x: Value)             // m_data[head] = SENTINEL
    | Advance                    // the thread's list is exhausted: next index
    | Again                      // TryStealBlock returned false
    | Return(result: Option<Value>)
    | Contended                  // branches taken only when another thread removes, too

  /** head: the adder's global head block. addBlock, addHead: the adder's own data.
      stealBlock, stealPrev, stealHead, stealIndex, foundAdd, round, tries: the remover's.
      chain lists the blocks linked from head, newest first; added and returned are the values so far;
      due holds the places of the items in the bag when the remover's round began, and passed tells whether
      this round has come to the end of the adder's list. */
  datatype State = State(
    blocks: map<Id, Block>, head: Option<Id>,
    adderPc: AdderPc, addBlock: Option<Id>, addHead: nat,
    pc: RemoverPc, stealBlock: Option<Id>, stealPrev: Option<Id>, stealHead: nat, stealIndex: nat,
    foundAdd: bool, round: nat, tries: nat,
    chain: seq<Id>, added: seq<Value>, returned: seq<Value>, due: set<(Id, nat)>, passed: bool)

  // ---------------------------------------------------------------- the adder

  function NewBlock(c: Config, next: Option<Id>): Block {
    Block(next, false, false, seq(c.slots, k => c.sentinel), false)
  }

  /** The steps that return nothing, and leave the round as it is. */
  predicate SameRound(s: State, s': State) {
    s'.returned == s.returned && s'.round == s.round && s'.due == s.due
  }

  /** The steps of the adder leave the remover where it is, and those of the remover the adder. */
  predicate LeavesRemover(s: State, s': State) {
    && s'.pc == s.pc && s'.stealBlock == s.stealBlock && s'.stealHead == s.stealHead
    && s'.foundAdd == s.foundAdd && s'.tries == s.tries
  }

  predicate LeavesAdder(s: State, s': State) {
    s'.adderPc == s.adderPc && s'.added == s.added
  }

  /** add */
  function AdderMoves(c: Config, s: State, fresh': Id): (s': State)
    requires s.addBlock.Some? ==> s.addBlock.value in s.blocks && |s.blocks[s.addBlock.value].data| == c.slots
    requires s.adderPc.PublishBlock? || s.adderPc.Notify? || s.adderPc.Write? ==> s.addBlock.Some?
    requires s.adderPc.Write? ==> s.addHead < c.slots
    requires s.addHead < c.slots ==> s.addBlock.Some?
    requires s.addHead <= c.slots
    ensures SameRound(s, s') && LeavesRemover(s, s')
  {
    match s.adderPc
    case Ready => s
    case Check(item) =>
      if s.addHead == c.slots then
        s.(blocks := s.blocks[fresh' := NewBlock(c, s.addBlock)], addBlock := Some(fresh'),
           adderPc := PublishBlock(item))
      else if s.blocks[s.addBlock.value].data[s.addHead] == c.sentinel then
        s.(adderPc := Notify(item))
      else
        s.(addHead := s.addHead + 1)
    case PublishBlock(item) =>
      s.(head := s.addBlock, addHead := 0, chain := [s.addBlock.value] + s.chain, adderPc := Check(item))
    case Notify(item) =>
      var b := s.addBlock.value;
      s.(blocks := s.blocks[b := s.blocks[b].(notified := false)], adderPc := Write(item))
    case Write(item) =>
      var b := s.addBlock.value;
      s.(blocks := s.blocks[b := s.blocks[b].(data := s.blocks[b].data[s.addHead := item])],
         addHead := s.addHead + 1, added := s.added + [item], adderPc := Ready)
  }

  // ---------------------------------------------------------------- the remover

  /** The places of the items in the bag. */
  function Places(c: Config, s: State): set<(Id, nat)> {
    set b, k | b in s.chain && b in s.blocks && 0 <= k < |s.blocks[b].data| && s.blocks[b].data[k] != c.sentinel ::
        (b, k)
  }

  predicate StealBlockOk(c: Config, s: State) {
    s.stealBlock.Some? && s.stealBlock.value in s.blocks && |s.blocks[s.stealBlock.value].data| == c.slots
  }

  predicate StealPrevOk(s: State) {
    s.stealPrev.Some? && s.stealPrev.value in s.blocks
  }

  predicate UsesStealBlock(pc: RemoverPc) {
    || pc.LoadNext? || pc.Decide? || pc.SetMark1? || pc.ClearNext? || pc.CheckNotify? || pc.ScanSlot? || pc.Take?
  }

  /** The remover's data that its next step reads are there. */
  predicate RemoverReady(c: Config, s: State) {
    && (UsesStealBlock(s.pc) ==> StealBlockOk(c, s))
    && (s.pc.SetMark2? || s.pc.Unlink? ==> StealPrevOk(s) && StealBlockOk(c, s))
    && (s.pc.Take? ==> s.stealHead < c.slots)
    && (s.pc.ScanSlot? ==> s.stealHead <= c.slots)
  }

  /** NextStealBlock, at the block that was just scanned. */
  function DoDecide(s: State): (s': State)
    requires s.pc.Decide?
    ensures SameRound(s, s') && LeavesAdder(s, s') && !s'.pc.Away?
  {
    if s.pc.mark2 then
      s.(pc := Contended)
    else if s.stealPrev == None || s.pc.next == None then
      if s.pc.mark1 then s.(pc := Contended) else s.(stealPrev := s.stealBlock, pc := NextBlock(s.pc.next))
    else if s.pc.mark1 then
      s.(pc := Unlink(s.pc.next, s.pc.mark2))
    else
      s.(pc := SetMark2)
  }

  function DoSetMark2(s: State): (s': State)
    requires StealPrevOk(s)
    ensures SameRound(s, s') && LeavesAdder(s, s') && !s'.pc.Away?
  {
    var p := s.stealPrev.value;
    var link := s.blocks[p];
    if link.next == s.stealBlock && !link.mark1 && !link.mark2 then
      s.(blocks := s.blocks[p := link.(mark2 := true)], pc := SetMark1)
    else
      s.(pc := Contended)
  }

  function DoSetMark1(s: State): (s': State)
    requires s.stealBlock.Some? && s.stealBlock.value in s.blocks
    ensures SameRound(s, s') && LeavesAdder(s, s') && !s'.pc.Away?
  {
    var b := s.stealBlock.value;
    var link := s.blocks[b];
    s.(blocks := if link.next == None || link.mark1 then s.blocks else s.blocks[b := link.(mark1 := true)],
       pc := LoadNext)
  }

  function DoUnlink(s: State): (s': State)
    requires s.pc.Unlink? && StealPrevOk(s) && s.stealBlock.Some?
    ensures SameRound(s, s') && LeavesAdder(s, s') && !s'.pc.Away?
  {
    var p := s.stealPrev.value;
    var link := s.blocks[p];
    // The expected value takes mark 2 from the link itself.
    if link.next == s.stealBlock && !link.mark1 then
      s.(blocks := s.blocks[p := link.(next := s.pc.next, mark2 := s.pc.mark2)],
         chain := Without(s.chain, s.stealBlock.value), pc := ClearNext(s.pc.next))
    else
      s.(pc := Contended)
  }

  function Without(chain: seq<Id>, b: Id): seq<Id> {
    if chain == [] then []
    else if chain[0] == b then chain[1..]
    else [chain[0]] + Without(chain[1..], b)
  }

  function DoClearNext(s: State): (s': State)
    requires s.pc.ClearNext? && s.stealBlock.Some? && s.stealBlock.value in s.blocks
    ensures SameRound(s, s') && LeavesAdder(s, s') && !s'.pc.Away?
  {
    var b := s.stealBlock.value;
    s.(blocks := s.blocks[b := s.blocks[b].(next := None, mark1 := true)], pc := NextBlock(s.pc.next))
  }

  function DoCheckNotify(s: State): (s': State)
    requires s.stealBlock.Some? && s.stealBlock.value in s.blocks
    ensures SameRound(s, s') && LeavesAdder(s, s') && !s'.pc.Away?
  {
    var b := s.stealBlock.value;
    var s' := s.(pc := ScanSlot);
    if s.round == 1 then s'.(blocks := s.blocks[b := s.blocks[b].(notified := true)])
    else if s.round > 1 && !s.blocks[b].notified then s'.(foundAdd := true)
    else s'
  }

  function DoScanSlot(c: Config, s: State): (s': State)
    requires StealBlockOk(c, s) && s.stealHead <= c.slots
    ensures SameRound(s, s') && LeavesAdder(s, s') && (!s.pc.Away? ==> !s'.pc.Away?)
  {
    if s.stealHead == c.slots then
      s.(pc := Again)
    else
      var x := s.blocks[s.stealBlock.value].data[s.stealHead];
      if x == c.sentinel then s.(stealHead := s.stealHead + 1) else s.(pc := Take(x))
  }

  function DoTake(c: Config, s: State): (s': State)
    requires s.pc.Take? && StealBlockOk(c, s) && s.stealHead < c.slots
    ensures s'.returned == s.returned + [s.pc.x] && s'.round == s.round && s'.due == s.due && !s'.pc.Away?
    ensures LeavesAdder(s, s')
  {
    var b := s.stealBlock.value;
    s.(blocks := s.blocks[b := s.blocks[b].(data := s.blocks[b].data[s.stealHead := c.sentinel])],
       returned := s.returned + [s.pc.x], pc := Return(Some(s.pc.x)))
  }

  /** The loops of tryRemoveAny around TryStealBlock. */
  function DoAgain(c: Config, s: State): (s': State)
    ensures s'.returned == s.returned && LeavesAdder(s, s') && !s'.pc.Away?
    ensures s'.round == 0 || s'.due == Places(c, s) || (s'.round == s.round && s'.due == s.due)
  {
    var round, tries :=
      if s.foundAdd then 0 else s.round,
      if s.foundAdd then 0 else if s.stealBlock == None then s.tries + 1 else s.tries;
    if tries < c.threads then
      s.(round := round, tries := tries, pc := Try)
    else if round + 1 <= c.threads then
      s.(round := round + 1, tries := 0, pc := Try, due := Places(c, s), passed := false)
    else
      s.(pc := Return(None))
  }

  function DoTry(c: Config, s: State): (s': State)
    ensures SameRound(s, s') && LeavesAdder(s, s') && !s'.pc.Away?
  {
    s.(foundAdd := false,
       pc := if s.stealBlock == None then LoadHead else if s.stealHead == c.slots then LoadNext else CheckNotify)
  }

  function DoLoadHead(c: Config, s: State): (s': State)
    ensures SameRound(s, s') && LeavesAdder(s, s') && !s'.pc.Away?
  {
    var b := if s.stealIndex == c.adder then s.head else None;
    s.(stealBlock := b, stealHead := 0, pc := if b == None then Advance else CheckNotify)
  }

  function DoLoadNext(s: State): (s': State)
    requires s.stealBlock.Some? && s.stealBlock.value in s.blocks
    ensures SameRound(s, s') && LeavesAdder(s, s') && !s'.pc.Away?
  {
    var b := s.blocks[s.stealBlock.value];
    s.(pc := Decide(b.next, b.mark1, b.mark2))
  }

  function DoNextBlock(s: State): (s': State)
    requires s.pc.NextBlock?
    ensures SameRound(s, s') && LeavesAdder(s, s') && !s'.pc.Away?
  {
    s.(stealBlock := s.pc.next, stealHead := 0, pc := if s.pc.next == None then Advance else CheckNotify)
  }

  function DoAdvance(c: Config, s: State): (s': State)
    requires c.threads > 0
    ensures SameRound(s, s') && LeavesAdder(s, s') && !s'.pc.Away?
  {
    s.(stealIndex := (s.stealIndex + 1) % c.threads, stealHead := 0, stealBlock := None, stealPrev := None,
       passed := s.passed || s.stealIndex == c.adder, pc := Again)
  }

  function RemoverMoves(c: Config, s: State): (s': State)
    requires c.threads > 0 && RemoverReady(c, s)
    ensures s.pc.Take? || s'.returned == s.returned
    ensures s.pc.Again? || (s'.round == s.round && s'.due == s.due)
    ensures s.pc.Away? ==> s' == s
    ensures LeavesAdder(s, s')
  {
    match s.pc
    case Away => s
    case Try => DoTry(c, s)
    case LoadHead => DoLoadHead(c, s)
    case LoadNext => DoLoadNext(s)
    case Decide(_, _, _) => DoDecide(s)
    case SetMark2 => DoSetMark2(s)
    case SetMark1 => DoSetMark1(s)
    case Unlink(_, _) => DoUnlink(s)
    case ClearNext(_) => DoClearNext(s)
    case NextBlock(_) => DoNextBlock(s)
    case CheckNotify => DoCheckNotify(s)
    case ScanSlot => DoScanSlot(c, s)
    case Take(_) => DoTake(c, s)
    case Advance => DoAdvance(c, s)
    case Again => DoAgain(c, s)
    case Return(_) => s.(pc := Away)
    case Contended => s
  }

  // ---------------------------------------------------------------- the system

  datatype Event =
    | Add(item: Value)           // the adder calls add
    | InitThread                 // the adder calls initThread again
    | AdderStep(fresh': Id)
    | TryRemoveAny               // the remover calls tryRemoveAny
    | RemoverStep

  predicate Enabled(c: Config, s: State, e: Event) {
    match e
    case Add(_) => s.adderPc.Ready?
    case InitThread => s.adderPc.Ready?
    case AdderStep(b) =>
      && !s.adderPc.Ready? && b !in s.blocks && s.addHead <= c.slots
      && (s.addBlock.Some? ==> s.addBlock.value in s.blocks && |s.blocks[s.addBlock.value].data| == c.slots)
      && (s.adderPc.PublishBlock? || s.adderPc.Notify? || s.adderPc.Write? ==> s.addBlock.Some?)
      && (s.adderPc.Write? ==> s.addHead < c.slots)
      && (s.addHead < c.slots ==> s.addBlock.Some?)
    case TryRemoveAny => s.pc.Away?
    case RemoverStep => !s.pc.Away? && RemoverReady(c, s)
  }

  function Exec(c: Config, s: State, e: Event): State
    requires c.Valid() && Enabled(c, s, e)
  {
    match e
    case Add(item) => s.(adderPc := Check(item))
    case InitThread => s.(addBlock := s.head, addHead := c.slots)
    case AdderStep(b) => AdderMoves(c, s, b)
    case TryRemoveAny => s.(round := 0, tries := 0, pc := Try)
    case RemoverStep => RemoverMoves(c, s)
  }

  predicate Init(c: Config, s: State) {
    && s.blocks == map[] && s.head == None && s.chain == [] && s.added == [] && s.returned == []
    && s.adderPc == Ready && s.addBlock == None && s.addHead == c.slots
    && s.pc == Away && s.stealBlock == None && s.stealPrev == None
    && s.stealHead == c.slots && s.stealIndex == 0
  }
}
