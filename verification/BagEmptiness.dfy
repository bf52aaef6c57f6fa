/** Why tryRemoveAny may say that there is nothing: a whole round of the remover meets every item that
    was in the bag when the round began. */
module BagEmptiness {
  import opened Options
  import opened BagMachine
  import opened BagChain
  import opened BagInvariant

  /** The remover is inside tryRemoveAny and has not decided yet. */
  predicate Searching(pc: RemoverPc) {
    !pc.Away? && !pc.Return?
  }

  /** How many indices come before the adder's. */
  function ToGo(c: Config, s: State): int {
    if s.stealIndex <= c.adder then c.adder - s.stealIndex else c.adder - s.stealIndex + c.threads
  }

  /** The attempts that the loop will have counted. */
  function Tries(s: State): nat {
    if s.pc.Again? && s.stealBlock == None then s.tries + 1 else s.tries
  }

  ghost predicate LoopInv(c: Config, s: State) {
    && s.round <= c.threads && s.tries < c.threads && s.stealIndex < c.threads
    && (s.round >= 1 && !s.passed && !(s.pc.Again? && s.foundAdd) ==> ToGo(c, s) + Tries(s) < c.threads)
  }

  /** The items that were in the bag when the round began are still there. */
  ghost predicate StillThere(c: Config, s: State) {
    forall b, k | (b, k) in s.due ::
      b in s.chain && b in s.blocks && k < |s.blocks[b].data| && s.blocks[b].data[k] != c.sentinel
  }

  /** They all lie in the chain from b on, and in b itself not before slot k0. */
  ghost predicate LieAhead(s: State, b: Id, k0: nat) {
    forall d, k | (d, k) in s.due :: d in From(s.chain, b) && (d == b ==> k >= k0)
  }

  /** They lie where the remover has yet to come in this round. */
  ghost predicate AheadInv(c: Config, s: State) {
    if s.passed then s.due == {}
    else if s.pc.ClearNext? || s.pc.NextBlock? then
      if s.pc.next == None then s.due == {} else LieAhead(s, s.pc.next.value, 0)
    else if s.pc.Advance? then s.stealIndex == c.adder ==> s.due == {}
    else s.stealBlock.Some? ==> LieAhead(s, s.stealBlock.value, s.stealHead)
  }

  ghost predicate RoundInv(c: Config, s: State) {
    && (Searching(s.pc) ==> LoopInv(c, s))
    && (Searching(s.pc) && s.round >= 1 ==> StillThere(c, s) && AheadInv(c, s))
    && (s.pc == Return(None) ==> s.due == {} && s.round == c.threads)
    && s.stealIndex < c.threads
  }

  // ---------------------------------------------------------------- steps of the adder

  lemma FromFirst(chain: seq<Id>, n: Id, b: Id)
    requires b != n
    ensures From([n] + chain, b) == From(chain, b)
  {
    assert ([n] + chain)[1..] == chain;
  }

  lemma PublishKeepsRound(c: Config, s: State, n: Id)
    requires c.Valid() && Inv(c, s) && RoundInv(c, s) && s.adderPc.PublishBlock? && Enabled(c, s, AdderStep(n))
    ensures RoundInv(c, AdderMoves(c, s, n))
  {
    forall b | b in s.chain ensures From(AdderMoves(c, s, n).chain, b) == From(s.chain, b) {
      FromFirst(s.chain, s.addBlock.value, b);
    }
    if (s.pc.ClearNext? || s.pc.NextBlock?) && s.pc.next.Some? {
      ChainMember(c, s.blocks, s.chain, s.stealPrev.value);
    }
  }

  /** Every slot that holds an item holds one still. */
  ghost predicate SameItems(c: Config, s: State, s': State) {
    forall b, k | b in s.blocks && 0 <= k < |s.blocks[b].data| && s.blocks[b].data[k] != c.sentinel ::
      b in s'.blocks && k < |s'.blocks[b].data| && s'.blocks[b].data[k] != c.sentinel
  }

  /** The adder writes only to a slot that is empty. */
  lemma AdderLeavesItems(c: Config, s: State, n: Id)
    requires c.Valid() && AdderInv(c, s) && Enabled(c, s, AdderStep(n))
    ensures SameItems(c, s, AdderMoves(c, s, n))
  {
  }

  /** But for a new block's publication its steps leave the chain alone. */
  lemma AdderFrame(c: Config, s: State, n: Id)
    requires c.Valid() && !s.adderPc.PublishBlock? && Enabled(c, s, AdderStep(n))
    ensures var s' := AdderMoves(c, s, n);
            s' == s.(blocks := s'.blocks, adderPc := s'.adderPc, addBlock := s'.addBlock, addHead := s'.addHead,
                added := s'.added)
  {
  }

  lemma ItemsKept(c: Config, s: State, s': State)
    requires RoundInv(c, s)
    requires s' == s.(blocks := s'.blocks, adderPc := s'.adderPc, addBlock := s'.addBlock, addHead := s'.addHead,
               added := s'.added)
    requires SameItems(c, s, s')
    ensures RoundInv(c, s')
  {
  }

  lemma AdderKeepsRound(c: Config, s: State, n: Id)
    requires c.Valid() && Inv(c, s) && RoundInv(c, s) && Enabled(c, s, AdderStep(n))
    ensures RoundInv(c, AdderMoves(c, s, n))
  {
    if s.adderPc.PublishBlock? {
      PublishKeepsRound(c, s, n);
    } else {
      AdderLeavesItems(c, s, n);
      AdderFrame(c, s, n);
      ItemsKept(c, s, AdderMoves(c, s, n));
    }
  }

  // ---------------------------------------------------------------- steps of the remover

  // The steps that leave every item, and the remover's place among them, alone.

  ghost predicate Neutral(s: State, s': State) {
    && s'.chain == s.chain && s'.due == s.due && s'.passed == s.passed
    && s'.round == s.round && s'.tries == s.tries
    && s'.stealBlock == s.stealBlock && s'.stealHead == s.stealHead && s'.stealIndex == s.stealIndex
    && (forall b | b in s.blocks :: b in s'.blocks && s'.blocks[b].data == s.blocks[b].data)
  }

  lemma NeutralKeepsRound(c: Config, s: State, s': State)
    requires RoundInv(c, s) && Searching(s.pc) && Neutral(s, s') && Searching(s'.pc)
    requires !s.pc.Again? && !s.pc.ClearNext? && !s.pc.NextBlock? && !s.pc.Advance?
    requires !s'.pc.Again? && !s'.pc.ClearNext? && !s'.pc.NextBlock? && !s'.pc.Advance?
    ensures RoundInv(c, s')
  {
  }

  lemma NothingDue(due: set<(Id, nat)>)
    requires forall b, k :: (b, k) !in due
    ensures due == {}
  {
    assert forall x | x in due :: x == (x.0, x.1);
  }

  lemma LoadHeadKeepsRound(c: Config, s: State)
    requires c.Valid() && Inv(c, s) && RoundInv(c, s) && s.pc.LoadHead?
    ensures RoundInv(c, DoLoadHead(c, s))
  {
    if s.round >= 1 && !s.passed && s.stealIndex == c.adder && s.chain == [] {
      NothingDue(s.due);
    }
  }

  /** Nothing is left in a block that was scanned to its end. */
  lemma BeyondScanned(c: Config, s: State)
    requires Inv(c, s) && StillThere(c, s) && s.stealBlock.Some? && s.stealBlock.value in s.chain
    requires s.stealHead == c.slots && LieAhead(s, s.stealBlock.value, s.stealHead)
    ensures forall d, k | (d, k) in s.due :: d != s.stealBlock.value
    ensures s.stealBlock.value in s.blocks
    ensures var next := s.blocks[s.stealBlock.value].next;
            if next == None then s.due == {} else LieAhead(s, next.value, 0)
  {
    var b := s.stealBlock.value;
    ChainMember(c, s.blocks, s.chain, b);
    FromNext(c, s.blocks, s.chain, b);
    if s.blocks[b].next == None {
      NothingDue(s.due);
    }
  }

  /** The remover goes on to the next block, with nothing left behind it. */
  lemma StepOnKeepsRound(c: Config, s: State, s': State)
    requires c.Valid() && Inv(c, s) && RoundInv(c, s) && s.pc.Decide?
    requires s' == s.(stealPrev := s.stealBlock, pc := NextBlock(s.pc.next))
    ensures RoundInv(c, s')
  {
    if s.round >= 1 && !s.passed {
      BeyondScanned(c, s);
    }
  }

  lemma DecideKeepsRound(c: Config, s: State)
    requires c.Valid() && Inv(c, s) && RoundInv(c, s) && s.pc.Decide?
    ensures RoundInv(c, DoDecide(s))
  {
    DecideUncontended(c, s);
    if s.stealPrev == None || s.pc.next == None {
      StepOnKeepsRound(c, s, DoDecide(s));
    } else {
      NeutralKeepsRound(c, s, DoDecide(s));
    }
  }

  /** What lies ahead stays ahead when the scanned block leaves the chain. */
  lemma AheadWithout(c: Config, s: State, s': State)
    requires Inv(c, s) && StillThere(c, s) && s.stealBlock.Some? && s.stealBlock.value in s.chain
    requires s.stealHead == c.slots && LieAhead(s, s.stealBlock.value, s.stealHead)
    requires s.stealBlock.value in s.blocks && s.blocks[s.stealBlock.value].next.Some?
    requires s'.chain == Without(s.chain, s.stealBlock.value) && s'.due == s.due
    ensures LieAhead(s', s.blocks[s.stealBlock.value].next.value, 0)
    ensures forall d, k | (d, k) in s.due :: d in s'.chain
  {
    BeyondScanned(c, s);
    FromWithout(c, s.blocks, s.chain, s.stealBlock.value);
    WithoutMembers(c, s.blocks, s.chain, s.stealBlock.value);
  }

  lemma UnlinkKeepsRound(c: Config, s: State)
    requires c.Valid() && Inv(c, s) && RoundInv(c, s) && s.pc.Unlink? && Enabled(c, s, RemoverStep)
    ensures RoundInv(c, DoUnlink(s))
  {
    UnlinkSucceeds(c, s);
    if s.round >= 1 && !s.passed {
      AheadWithout(c, s, DoUnlink(s));
    }
  }

  /** Only the remover's own place changes, and no item is behind it. */
  lemma MoveKeepsRound(c: Config, s: State, s': State)
    requires RoundInv(c, s) && Searching(s.pc)
    requires s' == s.(pc := s'.pc, stealHead := s'.stealHead, foundAdd := s'.foundAdd)
    requires Searching(s'.pc)
    requires LoopInv(c, s')
    requires Searching(s'.pc) && s.round >= 1 ==> AheadInv(c, s')
    ensures RoundInv(c, s')
  {
  }

  lemma SlotEmptyKeepsRound(c: Config, s: State, s': State)
    requires Inv(c, s) && RoundInv(c, s) && s.pc.ScanSlot? && StealBlockOk(c, s) && s.stealHead < c.slots
    requires s.blocks[s.stealBlock.value].data[s.stealHead] == c.sentinel && s' == s.(stealHead := s.stealHead + 1)
    ensures RoundInv(c, s')
  {
    MoveKeepsRound(c, s, s');
  }

  lemma ScanSlotKeepsRound(c: Config, s: State)
    requires c.Valid() && Inv(c, s) && RoundInv(c, s) && s.pc.ScanSlot? && Enabled(c, s, RemoverStep)
    ensures RoundInv(c, DoScanSlot(c, s))
  {
    if s.stealHead < c.slots && s.blocks[s.stealBlock.value].data[s.stealHead] == c.sentinel {
      SlotEmptyKeepsRound(c, s, DoScanSlot(c, s));
    } else {
      MoveKeepsRound(c, s, DoScanSlot(c, s));
    }
  }

  lemma NextIndex(i: nat, n: nat)
    requires i < n
    ensures (i + 1) % n == if i + 1 == n then 0 else i + 1
  {
  }

  lemma AdvanceKeepsRound(c: Config, s: State)
    requires c.Valid() && Inv(c, s) && RoundInv(c, s) && s.pc.Advance?
    ensures RoundInv(c, DoAdvance(c, s))
  {
    NextIndex(s.stealIndex, c.threads);
  }

  /** Another attempt in the same round. */
  lemma RetryKeepsRound(c: Config, s: State, s': State)
    requires RoundInv(c, s) && s.pc.Again? && s'.pc == Try
    requires s' == s.(pc := Try, round := s'.round, tries := s'.tries)
    requires s'.round == 0 || (!s.foundAdd && s'.round == s.round && s'.tries == Tries(s))
    requires s'.round <= c.threads && s'.tries < c.threads
    ensures RoundInv(c, s')
  {
  }

  /** When a round begins the remover is between two lists, so everything lies ahead of it. */
  lemma NewRoundKeepsRound(c: Config, s: State, s': State)
    requires c.Valid() && Inv(c, s) && RoundInv(c, s) && s.pc.Again? && Tries(s) >= c.threads
    requires s' == s.(pc := Try, round := s'.round, tries := 0, due := Places(c, s), passed := false)
    requires s'.round <= c.threads
    ensures RoundInv(c, s')
  {
  }

  /** After the last attempt of the last round nothing is due: its attempts have passed the adder's list. */
  lemma GiveUpKeepsRound(c: Config, s: State, s': State)
    requires RoundInv(c, s) && s.pc.Again? && !s.foundAdd && s' == s.(pc := Return(None))
    requires c.Valid() && Tries(s) >= c.threads && s.round + 1 > c.threads
    ensures RoundInv(c, s')
  {
  }

  lemma AgainKeepsRound(c: Config, s: State)
    requires c.Valid() && Inv(c, s) && RoundInv(c, s) && s.pc.Again? && Enabled(c, s, RemoverStep)
    ensures RoundInv(c, DoAgain(c, s))
  {
    var s' := DoAgain(c, s);
    if s'.pc == Try {
      if (if s.foundAdd then 0 else Tries(s)) < c.threads {
        RetryKeepsRound(c, s, s');
      } else {
        NewRoundKeepsRound(c, s, s');
      }
    } else {
      GiveUpKeepsRound(c, s, s');
    }
  }

  lemma ClearNextKeepsRound(c: Config, s: State)
    requires c.Valid() && Inv(c, s) && RoundInv(c, s) && s.pc.ClearNext? && Enabled(c, s, RemoverStep)
    ensures RoundInv(c, DoClearNext(s))
  {
  }

  lemma NextBlockKeepsRound(c: Config, s: State)
    requires c.Valid() && Inv(c, s) && RoundInv(c, s) && s.pc.NextBlock?
    ensures RoundInv(c, DoNextBlock(s))
  {
  }

  lemma TryKeepsRound(c: Config, s: State)
    requires c.Valid() && RoundInv(c, s) && s.pc.Try? && Enabled(c, s, RemoverStep)
    ensures RoundInv(c, DoTry(c, s))
  {
    NeutralKeepsRound(c, s, DoTry(c, s));
  }

  lemma LoadNextKeepsRound(c: Config, s: State)
    requires c.Valid() && RoundInv(c, s) && s.pc.LoadNext? && Enabled(c, s, RemoverStep)
    ensures RoundInv(c, DoLoadNext(s))
  {
    NeutralKeepsRound(c, s, DoLoadNext(s));
  }

  lemma SetMark2KeepsRound(c: Config, s: State)
    requires c.Valid() && RoundInv(c, s) && s.pc.SetMark2? && Enabled(c, s, RemoverStep)
    ensures RoundInv(c, DoSetMark2(s))
  {
    NeutralKeepsRound(c, s, DoSetMark2(s));
  }

  lemma SetMark1KeepsRound(c: Config, s: State)
    requires c.Valid() && RoundInv(c, s) && s.pc.SetMark1? && Enabled(c, s, RemoverStep)
    ensures RoundInv(c, DoSetMark1(s))
  {
    NeutralKeepsRound(c, s, DoSetMark1(s));
  }

  lemma CheckNotifyKeepsRound(c: Config, s: State)
    requires c.Valid() && RoundInv(c, s) && s.pc.CheckNotify? && Enabled(c, s, RemoverStep)
    ensures RoundInv(c, DoCheckNotify(s))
  {
    NeutralKeepsRound(c, s, DoCheckNotify(s));
  }

  lemma LastKeepsRound(c: Config, s: State)
    requires c.Valid() && RoundInv(c, s) && Enabled(c, s, RemoverStep)
    requires s.pc.Take? || s.pc.Return? || s.pc.Contended?
    ensures RoundInv(c, RemoverMoves(c, s))
  {
  }

  lemma RemoverKeepsRound(c: Config, s: State)
    requires c.Valid() && Inv(c, s) && RoundInv(c, s) && Enabled(c, s, RemoverStep)
    ensures RoundInv(c, RemoverMoves(c, s))
  {
    match s.pc
    case LoadHead => LoadHeadKeepsRound(c, s);
    case Decide(_, _, _) => DecideKeepsRound(c, s);
    case Unlink(_, _) => UnlinkKeepsRound(c, s);
    case ClearNext(_) => ClearNextKeepsRound(c, s);
    case NextBlock(_) => NextBlockKeepsRound(c, s);
    case ScanSlot => ScanSlotKeepsRound(c, s);
    case Advance => AdvanceKeepsRound(c, s);
    case Again => AgainKeepsRound(c, s);
    case Take(_) => LastKeepsRound(c, s);
    case Return(_) => LastKeepsRound(c, s);
    case Contended => LastKeepsRound(c, s);
    case Try => TryKeepsRound(c, s);
    case LoadNext => LoadNextKeepsRound(c, s);
    case SetMark2 => SetMark2KeepsRound(c, s);
    case SetMark1 => SetMark1KeepsRound(c, s);
    case CheckNotify => CheckNotifyKeepsRound(c, s);
  }

  lemma StepKeepsRound(c: Config, s: State, e: Event)
    requires c.Valid() && Inv(c, s) && RoundInv(c, s) && Enabled(c, s, e)
    ensures RoundInv(c, Exec(c, s, e))
  {
    match e
    case AdderStep(n) => AdderKeepsRound(c, s, n);
    case RemoverStep => RemoverKeepsRound(c, s);
    case _ =>
  }
}
