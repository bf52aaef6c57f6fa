/** What every step of the adder and of the remover keeps. */
module BagInvariant {
  import opened Options
  import opened BagMachine
  import opened BagChain

  ghost predicate IsEmpty(c: Config, b: Block) {
    forall k | 0 <= k < |b.data| :: b.data[k] == c.sentinel
  }

  /** The adder fills the first block of the chain from addHead on, or is about to put a new block in front. */
  ghost predicate AdderInv(c: Config, s: State) {
    && s.addHead <= c.slots
    && if s.adderPc.PublishBlock? then
         && s.addBlock.Some? && s.addBlock.value in s.blocks && s.addBlock.value !in s.chain
         && s.blocks[s.addBlock.value] == NewBlock(c, s.head)
       else
         && s.addBlock == s.head
         && (s.head == None ==> s.addHead == c.slots)
         && (s.head.Some? && s.head.value in s.blocks ==>
               forall k | s.addHead <= k < |s.blocks[s.head.value].data| ::
                   s.blocks[s.head.value].data[k] == c.sentinel)
         && (s.adderPc.Notify? || s.adderPc.Write? ==> s.addHead < c.slots)
  }

  /** While the remover marks and unlinks the scanned block, and only then, marks are set: mark 2 in the link
      that leads to it and mark 1 in its own. */
  ghost predicate Unlinking(pc: RemoverPc) {
    pc.LoadNext? || pc.Decide? || pc.Unlink?
  }

  ghost predicate MarksInv(s: State) {
    && (forall b | b in s.chain && b in s.blocks && s.blocks[b].mark1 :: s.stealBlock == Some(b) && Unlinking(s.pc))
    && (forall b | b in s.chain && b in s.blocks && s.blocks[b].mark2 ::
          && s.stealPrev == Some(b)
          && (s.pc.SetMark1? || (Unlinking(s.pc) && StealMarked(s))))
    && (s.pc.SetMark1? || (Unlinking(s.pc) && StealMarked(s)) ==>
          && s.stealPrev.Some? && s.stealPrev.value in s.blocks && s.blocks[s.stealPrev.value].mark2
          && s.stealBlock.Some? && s.stealBlock.value in s.blocks && s.blocks[s.stealBlock.value].next.Some?)
    && (s.pc.Unlink? ==> StealMarked(s))
  }

  ghost predicate StealMarked(s: State) {
    s.stealBlock.Some? && s.stealBlock.value in s.blocks && s.blocks[s.stealBlock.value].mark1
  }

  /** The remover works on the block that follows stealPrev in the chain; everything before stealHead there
      has been found empty, for good: the adder never returns to a block that has a predecessor. */
  ghost predicate CursorInv(c: Config, s: State) {
    && s.stealHead <= c.slots
    && (s.stealBlock.Some? && !s.pc.ClearNext? && !s.pc.NextBlock? && !s.pc.Advance? ==>
          s.stealBlock.value in s.chain && s.stealIndex == c.adder)
    && (s.stealPrev.Some? && !s.pc.Advance? ==>
          && s.stealPrev.value in s.chain && s.stealPrev.value in s.blocks
          && s.stealIndex == c.adder
          && s.blocks[s.stealPrev.value].next ==
               (if s.pc.ClearNext? || s.pc.NextBlock? then s.pc.next else s.stealBlock)
          && (!s.pc.ClearNext? && !s.pc.NextBlock? ==>
                s.stealBlock.Some? && s.stealBlock.value in s.blocks
                && forall k | 0 <= k < s.stealHead && k < |s.blocks[s.stealBlock.value].data| ::
                     s.blocks[s.stealBlock.value].data[k] == c.sentinel))
  }

  ghost predicate PcInv(c: Config, s: State) {
    match s.pc
    case Away => true
    case Try => true
    case LoadHead => s.stealBlock == None && s.stealPrev == None
    case LoadNext => s.stealBlock.Some? && s.stealHead == c.slots
    case Decide(next, mark1, mark2) =>
      && s.stealBlock.Some? && s.stealHead == c.slots && s.stealBlock.value in s.blocks
      && var b := s.blocks[s.stealBlock.value]; next == b.next && mark1 == b.mark1 && mark2 == b.mark2
    case SetMark2 =>
      && s.stealPrev.Some? && s.stealBlock.Some? && s.stealHead == c.slots
      && s.stealBlock.value in s.blocks && s.blocks[s.stealBlock.value].next.Some?
    case SetMark1 => s.stealPrev.Some? && s.stealBlock.Some? && s.stealHead == c.slots
    case Unlink(next, mark2) =>
      && s.stealPrev.Some? && s.stealBlock.Some? && s.stealHead == c.slots
      && s.stealBlock.value in s.blocks && next == s.blocks[s.stealBlock.value].next && !mark2
    case ClearNext(_) =>
      && s.stealBlock.Some? && s.stealBlock.value in s.blocks && s.stealBlock.value !in s.chain && s.stealPrev.Some?
      && |s.blocks[s.stealBlock.value].data| == c.slots && s.addBlock != s.stealBlock && s.pc.next.Some?
    case NextBlock(next) => s.stealPrev.Some? && s.stealIndex == c.adder
    case CheckNotify => s.stealBlock.Some? && s.stealHead < c.slots
    case ScanSlot => s.stealBlock.Some?
    case Take(x) =>
      && s.stealBlock.Some? && s.stealHead < c.slots && x != c.sentinel
      && s.stealBlock.value in s.blocks && s.stealHead < |s.blocks[s.stealBlock.value].data|
      && s.blocks[s.stealBlock.value].data[s.stealHead] == x
    case Advance => true
    case Again => true
    case Return(_) => true
    case Contended => false
  }

  /** Every value added, other than the sentinel, was returned once or is in one slot of the chain. */
  ghost predicate Conserved(c: Config, s: State) {
    forall v | v != c.sentinel :: multiset(s.added)[v] == multiset(s.returned)[v] + Count(s.blocks, s.chain, v)
  }

  ghost predicate ListInv(c: Config, s: State) {
    ChainOk(c, s.blocks, s.chain) && s.head == First(s.chain)
  }

  ghost predicate Inv(c: Config, s: State) {
    && ListInv(c, s) && AdderInv(c, s) && MarksInv(s) && CursorInv(c, s) && PcInv(c, s)
    && Conserved(c, s)
  }

  lemma InitInv(c: Config, s: State)
    requires c.Valid() && Init(c, s)
    ensures Inv(c, s)
  {
  }

  /** The thread whose turn it is always has what its step reads. */
  lemma InvEnabled(c: Config, s: State, b: Id)
    requires c.Valid() && Inv(c, s)
    ensures !s.pc.Away? ==> Enabled(c, s, RemoverStep)
    ensures !s.adderPc.Ready? && b !in s.blocks ==> Enabled(c, s, AdderStep(b))
  {
    if s.stealBlock.Some? && s.stealBlock.value in s.chain {
      ChainMember(c, s.blocks, s.chain, s.stealBlock.value);
    }
    if s.stealPrev.Some? && s.stealPrev.value in s.chain {
      ChainMember(c, s.blocks, s.chain, s.stealPrev.value);
    }
  }

  // ---------------------------------------------------------------- steps of the adder

  /** The adder changes none of the shared data, nor its block. */
  lemma AdderPrivateKeeps(c: Config, s: State, s': State)
    requires Inv(c, s) && s' == s.(adderPc := s'.adderPc, addHead := s'.addHead)
    requires AdderInv(c, s')
    ensures Inv(c, s')
  {
  }

  lemma AddKeeps(c: Config, s: State, item: Value)
    requires c.Valid() && Inv(c, s) && s.adderPc.Ready?
    ensures Inv(c, Exec(c, s, Add(item)))
  {
    AdderPrivateKeeps(c, s, Exec(c, s, Add(item)));
  }

  lemma InitThreadKeeps(c: Config, s: State)
    requires c.Valid() && Inv(c, s) && s.adderPc.Ready?
    ensures Inv(c, Exec(c, s, InitThread))
  {
    if s.head.Some? {
      ChainMember(c, s.blocks, s.chain, s.head.value);
    }
  }

  /** A new block that nothing refers to yet. */
  lemma AllocateKeeps(c: Config, s: State, n: Id)
    requires c.Valid() && Inv(c, s) && s.adderPc.Check? && s.addHead == c.slots && n !in s.blocks
    requires Enabled(c, s, AdderStep(n))
    ensures Inv(c, AdderMoves(c, s, n))
  {
    var s' := AdderMoves(c, s, n);
    forall d | d in s.chain ensures d in s.blocks && d != n {
      ChainMember(c, s.blocks, s.chain, d);
    }
    ChainFrame(c, s.blocks, s'.blocks, s.chain);
    forall v ensures Count(s'.blocks, s'.chain, v) == Count(s.blocks, s.chain, v) {
      CountFrame(s.blocks, s'.blocks, s.chain, v);
    }
  }

  lemma PublishCounts(c: Config, s: State, n: Id)
    requires c.Valid() && Inv(c, s) && s.adderPc.PublishBlock? && Enabled(c, s, AdderStep(n))
    ensures Conserved(c, AdderMoves(c, s, n))
  {
    var s' := AdderMoves(c, s, n);
    assert s'.chain[1..] == s.chain;
    forall v | v != c.sentinel ensures Count(s'.blocks, s'.chain, v) == Count(s.blocks, s.chain, v) {
      EmptyCount(c, s.blocks[s.addBlock.value], v);
    }
  }

  lemma PublishKeepsList(c: Config, s: State, n: Id)
    requires c.Valid() && Inv(c, s) && s.adderPc.PublishBlock? && Enabled(c, s, AdderStep(n))
    ensures ListInv(c, AdderMoves(c, s, n)) && AdderInv(c, AdderMoves(c, s, n)) && MarksInv(AdderMoves(c, s, n))
  {
    assert AdderMoves(c, s, n).chain[1..] == s.chain;
  }

  lemma PublishKeeps(c: Config, s: State, n: Id)
    requires c.Valid() && Inv(c, s) && s.adderPc.PublishBlock? && Enabled(c, s, AdderStep(n))
    ensures Inv(c, AdderMoves(c, s, n))
  {
    PublishKeepsList(c, s, n);
    PublishCounts(c, s, n);
    assert forall d | d in s.chain :: d in AdderMoves(c, s, n).chain;
  }

  lemma EmptyCount(c: Config, b: Block, v: Value)
    requires IsEmpty(c, b) && v != c.sentinel
    ensures multiset(b.data)[v] == 0
  {
    assert v !in b.data;
  }

  /** A change of a block's marks, or of its notify bit. */
  lemma BitsKeepList(c: Config, s: State, s': State, b: Id)
    requires Inv(c, s) && b in s.blocks && b in s'.blocks
    requires s'.blocks == s.blocks[b := s'.blocks[b]]
    requires s'.blocks[b].next == s.blocks[b].next && s'.blocks[b].data == s.blocks[b].data
    requires s'.head == s.head && s'.chain == s.chain && s'.added == s.added && s'.returned == s.returned
    ensures ListInv(c, s') && Conserved(c, s')
  {
    ChainFrame(c, s.blocks, s'.blocks, s.chain);
    forall v ensures Count(s'.blocks, s'.chain, v) == Count(s.blocks, s.chain, v) {
      CountFrame(s.blocks, s'.blocks, s.chain, v);
    }
  }

  lemma NotifyKeeps(c: Config, s: State, n: Id)
    requires c.Valid() && Inv(c, s) && s.adderPc.Notify? && Enabled(c, s, AdderStep(n))
    ensures Inv(c, AdderMoves(c, s, n))
  {
    BitsKeepList(c, s, AdderMoves(c, s, n), s.addBlock.value);
  }

  /** A block on which the remover counts has a predecessor, so it is not the one the adder writes to. */
  lemma WriteKeepsCursor(c: Config, s: State, n: Id)
    requires c.Valid() && Inv(c, s) && s.adderPc.Write? && Enabled(c, s, AdderStep(n))
    ensures CursorInv(c, AdderMoves(c, s, n)) && PcInv(c, AdderMoves(c, s, n))
  {
    if s.stealPrev.Some? && !s.pc.Advance? && !s.pc.ClearNext? && !s.pc.NextBlock? {
      NotFirst(c, s.blocks, s.chain, s.stealPrev.value, s.stealBlock.value);
    }
  }

  lemma WriteKeepsList(c: Config, s: State, n: Id)
    requires c.Valid() && Inv(c, s) && s.adderPc.Write? && Enabled(c, s, AdderStep(n))
    ensures ListInv(c, AdderMoves(c, s, n)) && AdderInv(c, AdderMoves(c, s, n)) && MarksInv(AdderMoves(c, s, n))
  {
    ChainFrame(c, s.blocks, AdderMoves(c, s, n).blocks, s.chain);
  }

  lemma WriteKeeps(c: Config, s: State, n: Id)
    requires c.Valid() && Inv(c, s) && s.adderPc.Write? && Enabled(c, s, AdderStep(n))
    ensures Inv(c, AdderMoves(c, s, n))
  {
    WriteKeepsList(c, s, n);
    WriteKeepsCursor(c, s, n);
    WriteCounts(c, s, n);
  }

  lemma WriteCounts(c: Config, s: State, n: Id)
    requires c.Valid() && Inv(c, s) && s.adderPc.Write? && Enabled(c, s, AdderStep(n))
    ensures Conserved(c, AdderMoves(c, s, n))
  {
    var s' := AdderMoves(c, s, n);
    var item := s.adderPc.item;
    forall v | v != c.sentinel
      ensures multiset(s'.added)[v] == multiset(s'.returned)[v] + Count(s'.blocks, s'.chain, v)
    {
      CountWrite(c, s.blocks, s'.blocks, s.chain, s.addBlock.value, s.addHead, item, v);
      assert multiset(s'.added)[v] == multiset(s.added)[v] + if v == item then 1 else 0;
    }
  }

  lemma CheckKeeps(c: Config, s: State, n: Id)
    requires c.Valid() && Inv(c, s) && s.adderPc.Check? && s.addHead < c.slots && Enabled(c, s, AdderStep(n))
    ensures Inv(c, AdderMoves(c, s, n))
  {
    AdderPrivateKeeps(c, s, AdderMoves(c, s, n));
  }

  lemma AdderKeeps(c: Config, s: State, n: Id)
    requires c.Valid() && Inv(c, s) && Enabled(c, s, AdderStep(n))
    ensures Inv(c, AdderMoves(c, s, n))
  {
    match s.adderPc
    case Check(_) =>
      if s.addHead == c.slots {
        AllocateKeeps(c, s, n);
      } else {
        CheckKeeps(c, s, n);
      }
    case PublishBlock(_) => PublishKeeps(c, s, n);
    case Notify(_) => NotifyKeeps(c, s, n);
    case Write(_) => WriteKeeps(c, s, n);
  }

  // ---------------------------------------------------------------- steps of the remover

  /** The remover changes none of the shared data. */
  lemma PrivateKeeps(c: Config, s: State, s': State)
    requires Inv(c, s)
    requires s'.blocks == s.blocks && s'.head == s.head && s'.chain == s.chain
    requires s'.added == s.added && s'.returned == s.returned
    requires s'.adderPc == s.adderPc && s'.addBlock == s.addBlock && s'.addHead == s.addHead
    requires MarksInv(s') && CursorInv(c, s') && PcInv(c, s')
    ensures Inv(c, s')
  {
  }

  lemma TryKeeps(c: Config, s: State)
    requires c.Valid() && Inv(c, s) && s.pc.Try? && Enabled(c, s, RemoverStep)
    ensures Inv(c, DoTry(c, s))
  {
    PrivateKeeps(c, s, DoTry(c, s));
  }

  lemma LoadHeadKeeps(c: Config, s: State)
    requires c.Valid() && Inv(c, s) && s.pc.LoadHead? && Enabled(c, s, RemoverStep)
    ensures Inv(c, DoLoadHead(c, s))
  {
    PrivateKeeps(c, s, DoLoadHead(c, s));
  }

  lemma LoadNextKeeps(c: Config, s: State)
    requires c.Valid() && Inv(c, s) && s.pc.LoadNext? && Enabled(c, s, RemoverStep)
    ensures Inv(c, DoLoadNext(s))
  {
    PrivateKeeps(c, s, DoLoadNext(s));
  }

  /** The scanned block becomes the predecessor of the next one. */
  lemma StepOnKeeps(c: Config, s: State, s': State)
    requires Inv(c, s) && s.pc.Decide? && !s.pc.mark1 && !s.pc.mark2
    requires s' == s.(stealPrev := s.stealBlock, pc := NextBlock(s.pc.next))
    ensures Inv(c, s')
  {
    ChainMember(c, s.blocks, s.chain, s.stealBlock.value);
    PrivateKeeps(c, s, s');
  }

  lemma WillUnlinkKeeps(c: Config, s: State, s': State)
    requires Inv(c, s) && s.pc.Decide? && s.stealPrev.Some? && s.pc.next.Some? && !s.pc.mark2
    requires s' == s.(pc := if s.pc.mark1 then Unlink(s.pc.next, s.pc.mark2) else SetMark2)
    ensures Inv(c, s')
  {
    PrivateKeeps(c, s, s');
  }

  /** Mark 2 is never met in a link that leads on from the scanned block, nor mark 1 without a predecessor. */
  lemma DecideUncontended(c: Config, s: State)
    requires Inv(c, s) && s.pc.Decide?
    ensures !s.pc.mark2 && (s.stealPrev == None || s.pc.next == None ==> !s.pc.mark1)
  {
    ChainMember(c, s.blocks, s.chain, s.stealBlock.value);
  }

  lemma DecideKeeps(c: Config, s: State)
    requires c.Valid() && Inv(c, s) && s.pc.Decide? && Enabled(c, s, RemoverStep)
    ensures Inv(c, DoDecide(s))
  {
    DecideUncontended(c, s);
    if s.stealPrev == None || s.pc.next == None {
      StepOnKeeps(c, s, DoDecide(s));
    } else {
      WillUnlinkKeeps(c, s, DoDecide(s));
    }
  }

  lemma SlotEmptyKeeps(c: Config, s: State, s': State)
    requires Inv(c, s) && s.pc.ScanSlot? && StealBlockOk(c, s) && s.stealHead < c.slots
    requires s.blocks[s.stealBlock.value].data[s.stealHead] == c.sentinel && s' == s.(stealHead := s.stealHead + 1)
    ensures Inv(c, s')
  {
    PrivateKeeps(c, s, s');
  }

  lemma SlotEndKeeps(c: Config, s: State, s': State)
    requires Inv(c, s) && s.pc.ScanSlot? && StealBlockOk(c, s)
    requires s' == s.(pc := s'.pc) && s'.stealHead <= c.slots
    requires s'.pc == Again || (s.stealHead < c.slots && s'.pc == Take(s.blocks[s.stealBlock.value].data[s.stealHead])
                                && s'.pc.x != c.sentinel)
    ensures Inv(c, s')
  {
    PrivateKeeps(c, s, s');
  }

  lemma ScanSlotKeeps(c: Config, s: State)
    requires c.Valid() && Inv(c, s) && s.pc.ScanSlot? && Enabled(c, s, RemoverStep)
    ensures Inv(c, DoScanSlot(c, s))
  {
    if s.stealHead < c.slots && s.blocks[s.stealBlock.value].data[s.stealHead] == c.sentinel {
      SlotEmptyKeeps(c, s, DoScanSlot(c, s));
    } else {
      SlotEndKeeps(c, s, DoScanSlot(c, s));
    }
  }

  lemma NextBlockKeeps(c: Config, s: State)
    requires c.Valid() && Inv(c, s) && s.pc.NextBlock? && Enabled(c, s, RemoverStep)
    ensures Inv(c, DoNextBlock(s))
  {
    ChainMember(c, s.blocks, s.chain, s.stealPrev.value);
    if s.pc.next.Some? {
      ChainMember(c, s.blocks, s.chain, s.pc.next.value);
    }
    PrivateKeeps(c, s, DoNextBlock(s));
  }

  lemma AdvanceKeeps(c: Config, s: State)
    requires c.Valid() && Inv(c, s) && s.pc.Advance? && Enabled(c, s, RemoverStep)
    ensures Inv(c, DoAdvance(c, s))
  {
    PrivateKeeps(c, s, DoAdvance(c, s));
  }

  /** Between two attempts only the loop's counters change. */
  lemma LoopKeeps(c: Config, s: State, s': State)
    requires Inv(c, s) && s.pc.Again? && (s'.pc.Try? || s'.pc.Return?)
    requires s' == s.(pc := s'.pc, round := s'.round, tries := s'.tries, due := s'.due, passed := s'.passed)
    ensures Inv(c, s')
  {
    PrivateKeeps(c, s, s');
  }

  lemma AgainShape(c: Config, s: State)
    requires s.pc.Again?
    ensures var s' := DoAgain(c, s);
            (s'.pc.Try? || s'.pc.Return?)
            && s' == s.(pc := s'.pc, round := s'.round, tries := s'.tries, due := s'.due, passed := s'.passed)
  {
  }

  lemma AgainKeeps(c: Config, s: State)
    requires c.Valid() && Inv(c, s) && s.pc.Again? && Enabled(c, s, RemoverStep)
    ensures Inv(c, DoAgain(c, s))
  {
    AgainShape(c, s);
    LoopKeeps(c, s, DoAgain(c, s));
  }

  lemma ReturnKeeps(c: Config, s: State)
    requires c.Valid() && Inv(c, s) && s.pc.Return? && Enabled(c, s, RemoverStep)
    ensures Inv(c, s.(pc := Away))
  {
    PrivateKeeps(c, s, s.(pc := Away));
  }

  lemma SetMark2Keeps(c: Config, s: State)
    requires c.Valid() && Inv(c, s) && s.pc.SetMark2? && Enabled(c, s, RemoverStep)
    ensures Inv(c, DoSetMark2(s))
  {
    BitsKeepList(c, s, DoSetMark2(s), s.stealPrev.value);
  }

  lemma SetMark1Keeps(c: Config, s: State)
    requires c.Valid() && Inv(c, s) && s.pc.SetMark1? && Enabled(c, s, RemoverStep)
    ensures Inv(c, DoSetMark1(s))
  {
    BitsKeepList(c, s, DoSetMark1(s), s.stealBlock.value);
  }

  lemma NotifyStartKeeps(c: Config, s: State, s': State)
    requires c.Valid() && Inv(c, s) && s.pc.CheckNotify? && StealBlockOk(c, s)
    requires var b := s.stealBlock.value;
             s' == s.(pc := ScanSlot, blocks := s.blocks[b := s.blocks[b].(notified := true)])
    ensures Inv(c, s')
  {
    BitsKeepList(c, s, s', s.stealBlock.value);
  }

  lemma NotifyCheckKeeps(c: Config, s: State, s': State)
    requires Inv(c, s) && s.pc.CheckNotify? && s' == s.(pc := ScanSlot, foundAdd := s'.foundAdd)
    ensures Inv(c, s')
  {
    PrivateKeeps(c, s, s');
  }

  lemma CheckNotifyKeeps(c: Config, s: State)
    requires c.Valid() && Inv(c, s) && s.pc.CheckNotify? && Enabled(c, s, RemoverStep)
    ensures Inv(c, DoCheckNotify(s))
  {
    if s.round == 1 {
      NotifyStartKeeps(c, s, DoCheckNotify(s));
    } else {
      NotifyCheckKeeps(c, s, DoCheckNotify(s));
    }
  }

  /** What the remover unlinks has a predecessor and was scanned to its end since it had one: it is empty. */
  lemma UnlinkedIsEmpty(c: Config, s: State)
    requires c.Valid() && Inv(c, s) && s.pc.Unlink?
    ensures s.stealBlock.Some? && s.stealBlock.value in s.blocks && IsEmpty(c, s.blocks[s.stealBlock.value])
  {
    ChainMember(c, s.blocks, s.chain, s.stealBlock.value);
  }

  /** Nobody else changes links, so the swap that unlinks succeeds. */
  lemma UnlinkSucceeds(c: Config, s: State)
    requires c.Valid() && Inv(c, s) && s.pc.Unlink?
    ensures StealPrevOk(s) && s.stealBlock.Some? && s.stealBlock.value in s.blocks
    ensures s.stealPrev.value != s.stealBlock.value
    ensures s.blocks[s.stealPrev.value].next == s.stealBlock && !s.blocks[s.stealPrev.value].mark1
    ensures s.head.Some? && s.head != s.stealBlock && s.addBlock != s.stealBlock
    ensures s.blocks[s.stealBlock.value].next.Some? && s.blocks[s.stealBlock.value].next.value in s.chain
    ensures s.blocks[s.stealBlock.value].next != s.stealBlock
    ensures |s.blocks[s.stealBlock.value].data| == c.slots && |s.blocks[s.stealPrev.value].data| == c.slots
  {
    ChainMember(c, s.blocks, s.chain, s.stealPrev.value);
    ChainMember(c, s.blocks, s.chain, s.stealBlock.value);
    NotFirst(c, s.blocks, s.chain, s.stealPrev.value, s.stealBlock.value);
  }

  lemma UnlinkKeepsList(c: Config, s: State)
    requires c.Valid() && Inv(c, s) && s.pc.Unlink? && Enabled(c, s, RemoverStep)
    ensures ListInv(c, DoUnlink(s))
    ensures forall d :: d in DoUnlink(s).chain <==> d in s.chain && d != s.stealBlock.value
  {
    UnlinkSucceeds(c, s);
    UnlinkOk(c, s.blocks, DoUnlink(s).blocks, s.chain, s.stealPrev.value, s.stealBlock.value);
    WithoutMembers(c, s.blocks, s.chain, s.stealBlock.value);
  }

  lemma UnlinkCounts(c: Config, s: State)
    requires c.Valid() && Inv(c, s) && s.pc.Unlink? && Enabled(c, s, RemoverStep)
    ensures Conserved(c, DoUnlink(s))
  {
    var s', b := DoUnlink(s), s.stealBlock.value;
    UnlinkSucceeds(c, s);
    UnlinkedIsEmpty(c, s);
    forall v | v != c.sentinel ensures Count(s'.blocks, s'.chain, v) == Count(s.blocks, s.chain, v) {
      EmptyCount(c, s.blocks[b], v);
      CountWithout(c, s.blocks, s.chain, b, v);
      CountFrame(s.blocks, s'.blocks, s'.chain, v);
    }
  }

  lemma UnlinkKeepsCursor(c: Config, s: State)
    requires c.Valid() && Inv(c, s) && s.pc.Unlink? && Enabled(c, s, RemoverStep)
    ensures var s' := DoUnlink(s); AdderInv(c, s') && MarksInv(s') && CursorInv(c, s') && PcInv(c, s')
  {
    UnlinkSucceeds(c, s);
    UnlinkKeepsList(c, s);
  }

  lemma UnlinkKeeps(c: Config, s: State)
    requires c.Valid() && Inv(c, s) && s.pc.Unlink? && Enabled(c, s, RemoverStep)
    ensures Inv(c, DoUnlink(s))
  {
    UnlinkKeepsList(c, s);
    UnlinkKeepsCursor(c, s);
    UnlinkCounts(c, s);
  }

  lemma ClearNextKeeps(c: Config, s: State)
    requires c.Valid() && Inv(c, s) && s.pc.ClearNext? && Enabled(c, s, RemoverStep)
    ensures Inv(c, DoClearNext(s))
  {
    var s' := DoClearNext(s);
    ChainFrame(c, s.blocks, s'.blocks, s.chain);
    forall v ensures Count(s'.blocks, s'.chain, v) == Count(s.blocks, s.chain, v) {
      CountFrame(s.blocks, s'.blocks, s.chain, v);
    }
  }

  lemma TakeCounts(c: Config, s: State)
    requires c.Valid() && Inv(c, s) && s.pc.Take? && Enabled(c, s, RemoverStep)
    ensures Conserved(c, DoTake(c, s))
  {
    var s' := DoTake(c, s);
    forall v | v != c.sentinel
      ensures multiset(s'.added)[v] == multiset(s'.returned)[v] + Count(s'.blocks, s'.chain, v)
    {
      CountWrite(c, s.blocks, s'.blocks, s.chain, s.stealBlock.value, s.stealHead, c.sentinel, v);
      assert multiset(s'.returned)[v] == multiset(s.returned)[v] + if v == s.pc.x then 1 else 0;
    }
  }

  lemma TakeKeepsList(c: Config, s: State)
    requires c.Valid() && Inv(c, s) && s.pc.Take? && Enabled(c, s, RemoverStep)
    ensures ListInv(c, DoTake(c, s)) && AdderInv(c, DoTake(c, s))
  {
    ChainFrame(c, s.blocks, DoTake(c, s).blocks, s.chain);
  }

  lemma TakeKeepsCursor(c: Config, s: State)
    requires c.Valid() && Inv(c, s) && s.pc.Take? && Enabled(c, s, RemoverStep)
    ensures MarksInv(DoTake(c, s)) && CursorInv(c, DoTake(c, s)) && PcInv(c, DoTake(c, s))
  {
  }

  lemma TakeKeeps(c: Config, s: State)
    requires c.Valid() && Inv(c, s) && s.pc.Take? && Enabled(c, s, RemoverStep)
    ensures Inv(c, DoTake(c, s))
  {
    TakeKeepsList(c, s);
    TakeKeepsCursor(c, s);
    TakeCounts(c, s);
  }

  // ---------------------------------------------------------------- all steps

  predicate AtLink(pc: RemoverPc) {
    pc.LoadNext? || pc.Decide? || pc.SetMark2? || pc.SetMark1? || pc.Unlink?
  }

  /** NextStealBlock, up to the unlinking */
  lemma LinkStepKeeps(c: Config, s: State)
    requires c.Valid() && Inv(c, s) && Enabled(c, s, RemoverStep) && AtLink(s.pc)
    ensures Inv(c, RemoverMoves(c, s))
  {
    match s.pc
    case LoadNext => LoadNextKeeps(c, s);
    case Decide(_, _, _) => DecideKeeps(c, s);
    case SetMark2 => SetMark2Keeps(c, s);
    case SetMark1 => SetMark1Keeps(c, s);
    case Unlink(_, _) => UnlinkKeeps(c, s);
  }

  lemma RemoverKeeps(c: Config, s: State)
    requires c.Valid() && Inv(c, s) && Enabled(c, s, RemoverStep)
    ensures Inv(c, RemoverMoves(c, s))
  {
    if AtLink(s.pc) {
      LinkStepKeeps(c, s);
    } else {
      match s.pc
      case Try => TryKeeps(c, s);
      case LoadHead => LoadHeadKeeps(c, s);
      case ClearNext(_) => ClearNextKeeps(c, s);
      case NextBlock(_) => NextBlockKeeps(c, s);
      case CheckNotify => CheckNotifyKeeps(c, s);
      case ScanSlot => ScanSlotKeeps(c, s);
      case Take(_) => TakeKeeps(c, s);
      case Advance => AdvanceKeeps(c, s);
      case Again => AgainKeeps(c, s);
      case Return(_) => ReturnKeeps(c, s);
    }
  }

  lemma StepKeepsInv(c: Config, s: State, e: Event)
    requires c.Valid() && Inv(c, s) && Enabled(c, s, e)
    ensures Inv(c, Exec(c, s, e))
  {
    match e
    case Add(item) => AddKeeps(c, s, item);
    case InitThread => InitThreadKeeps(c, s);
    case AdderStep(n) => AdderKeeps(c, s, n);
    case TryRemoveAny => TryRemoveAnyKeeps(c, s);
    case RemoverStep => RemoverKeeps(c, s);
  }

  lemma TryRemoveAnyKeeps(c: Config, s: State)
    requires c.Valid() && Inv(c, s) && s.pc.Away?
    ensures Inv(c, Exec(c, s, TryRemoveAny))
  {
    PrivateKeeps(c, s, Exec(c, s, TryRemoveAny));
  }
}
