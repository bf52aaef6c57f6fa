/** Why tryRemoveAny comes to an end: each of its steps brings it nearer to the end, but for those that begin the rounds
    anew because something was added. */
module BagEnds {
  import opened Options
  import opened BagMachine
  import opened BagChain
  import opened BagInvariant
  import opened BagEmptiness
  import opened BagTheorems

  /** The rounds and the attempts that remain; whether the list is still to be entered, or left; the blocks ahead; the
      slots ahead in the block; and the steps that remain there. */
  datatype Rank = Rank(rounds: int, tries: int, phase: nat, blocks: nat, slots: int, steps: nat)

  ghost predicate Below(a: Rank, b: Rank) {
    && a.rounds >= 0 && a.tries >= 0 && a.slots >= 0
    && (|| a.rounds < b.rounds
        || (a.rounds == b.rounds && a.tries < b.tries)
        || (a.rounds == b.rounds && a.tries == b.tries && BelowInAttempt(a, b)))
  }

  ghost predicate BelowInAttempt(a: Rank, b: Rank) {
    || a.phase < b.phase
    || (a.phase == b.phase && a.blocks < b.blocks)
    || (a.phase == b.phase && a.blocks == b.blocks && a.slots < b.slots)
    || (a.phase == b.phase && a.blocks == b.blocks && a.slots == b.slots && a.steps < b.steps)
  }

  function Phase(s: State): nat {
    if s.pc.Advance? || (s.pc.Again? && s.stealBlock == None) then 0
    else if (s.pc.Try? || s.pc.LoadHead?) && s.stealBlock == None then 2
    else 1
  }

  /** Twice the blocks from the present one on, or one more than twice those from the next one on. */
  ghost function Blocks(s: State): nat {
    if Phase(s) != 1 then 0
    else if s.pc.ClearNext? || s.pc.NextBlock? then
      if s.pc.next == None then 1 else 2 * |From(s.chain, s.pc.next.value)| + 1
    else if s.stealBlock == None then 0
    else 2 * |From(s.chain, s.stealBlock.value)|
  }

  predicate Marked(s: State) {
    s.stealBlock.Some? && s.stealBlock.value in s.blocks && s.blocks[s.stealBlock.value].mark1
  }

  function Steps(c: Config, s: State): nat {
    match s.pc
    case Away => 0
    case Return(_) => 0
    case Contended => 0
    case ScanSlot => if s.stealHead == c.slots then 14 else 10
    case Again => 13
    case Try => 12
    case CheckNotify => 11
    case LoadNext => if Marked(s) then 7 else 11
    case Decide(_, mark1, _) => if mark1 then 6 else 10
    case Take(_) => 9
    case SetMark2 => 9
    case SetMark1 => 8
    case Unlink(_, _) => 5
    case ClearNext(_) => 4
    case NextBlock(_) => 3
    case LoadHead => 1
    case Advance => 14
  }

  /** In a block, the slots ahead. */
  function Slots(c: Config, s: State): int {
    if Phase(s) == 1 then c.slots - s.stealHead else 0
  }

  ghost function RankOf(c: Config, s: State): Rank {
    if s.pc.Away? || s.pc.Return? then Rank(0, 0, 0, 0, 0, 0)
    else Rank(c.threads - s.round, c.threads - s.tries, Phase(s), Blocks(s), Slots(c, s), Steps(c, s))
  }

  ghost predicate Nearer(c: Config, s: State, s': State) {
    Below(RankOf(c, s'), RankOf(c, s))
  }

  // ---------------------------------------------------------------- steps of the remover

  predicate InBlock(pc: RemoverPc) {
    !pc.Away? && !pc.Return? && !pc.Advance? && !pc.ClearNext? && !pc.NextBlock? && !pc.LoadHead?
  }

  /** The remover goes on in the same block. */
  lemma InBlockNearer(c: Config, s: State, s': State)
    requires LoopInv(c, s) && s.stealBlock.Some? && s'.stealBlock == s.stealBlock && s'.chain == s.chain
    requires s'.round == s.round && s'.tries == s.tries && InBlock(s.pc) && InBlock(s'.pc)
    requires s.stealHead <= s'.stealHead <= c.slots
    requires s'.stealHead == s.stealHead ==> Steps(c, s') < Steps(c, s)
    ensures Nearer(c, s, s')
  {
  }

  lemma TryNearer(c: Config, s: State)
    requires Inv(c, s) && RoundInv(c, s) && s.pc.Try?
    ensures Nearer(c, s, DoTry(c, s))
  {
  }

  lemma LoadHeadNearer(c: Config, s: State)
    requires Inv(c, s) && RoundInv(c, s) && s.pc.LoadHead?
    ensures Nearer(c, s, DoLoadHead(c, s))
  {
  }

  lemma LoadNextNearer(c: Config, s: State)
    requires Inv(c, s) && RoundInv(c, s) && s.pc.LoadNext? && Enabled(c, s, RemoverStep)
    ensures Nearer(c, s, DoLoadNext(s))
  {
  }

  /** Going on to the next block leaves one behind. */
  lemma StepOnNearer(c: Config, s: State, s': State)
    requires Inv(c, s) && RoundInv(c, s) && s.pc.Decide? && s'.stealHead == s.stealHead
    requires s'.round == s.round && s'.tries == s.tries && s'.chain == s.chain && s'.pc == NextBlock(s.pc.next)
    ensures Nearer(c, s, s')
  {
    FromNext(c, s.blocks, s.chain, s.stealBlock.value);
  }

  lemma DecideNearer(c: Config, s: State)
    requires Inv(c, s) && RoundInv(c, s) && s.pc.Decide?
    ensures Nearer(c, s, DoDecide(s))
  {
    DecideUncontended(c, s);
    if s.stealPrev == None || s.pc.next == None {
      StepOnNearer(c, s, DoDecide(s));
    } else {
      InBlockNearer(c, s, DoDecide(s));
    }
  }

  lemma SetMark2Nearer(c: Config, s: State)
    requires c.Valid() && Inv(c, s) && RoundInv(c, s) && s.pc.SetMark2? && Enabled(c, s, RemoverStep)
    ensures Nearer(c, s, DoSetMark2(s))
  {
    SetMark2Keeps(c, s);
    InBlockNearer(c, s, DoSetMark2(s));
  }

  lemma SetMark1Nearer(c: Config, s: State)
    requires Inv(c, s) && RoundInv(c, s) && s.pc.SetMark1? && Enabled(c, s, RemoverStep)
    ensures Nearer(c, s, DoSetMark1(s))
  {
  }

  /** The chain from the next block on is one block shorter, and the same after the unlinking. */
  lemma FromAfter(c: Config, blocks: map<Id, Block>, chain: seq<Id>, b: Id, n: Id)
    requires ChainOk(c, blocks, chain) && b in chain && b in blocks && blocks[b].next == Some(n)
    ensures |From(chain, b)| == |From(Without(chain, b), n)| + 1
  {
    FromNext(c, blocks, chain, b);
    FromWithout(c, blocks, chain, b);
  }

  lemma LeaveBlockNearer(c: Config, s: State, s': State)
    requires LoopInv(c, s) && s.pc.Unlink? && s.stealBlock.Some? && s.stealHead <= c.slots
    requires s'.round == s.round && s'.tries == s.tries && s'.stealHead == s.stealHead
    requires s'.pc.ClearNext? && s'.pc.next.Some?
    requires |From(s.chain, s.stealBlock.value)| == |From(s'.chain, s'.pc.next.value)| + 1
    ensures Nearer(c, s, s')
  {
  }

  lemma UnlinkNearer(c: Config, s: State)
    requires c.Valid() && Inv(c, s) && RoundInv(c, s) && s.pc.Unlink? && Enabled(c, s, RemoverStep)
    ensures Nearer(c, s, DoUnlink(s))
  {
    UnlinkSucceeds(c, s);
    FromAfter(c, s.blocks, s.chain, s.stealBlock.value, s.pc.next.value);
    LeaveBlockNearer(c, s, DoUnlink(s));
  }

  lemma ClearNextNearer(c: Config, s: State)
    requires Inv(c, s) && RoundInv(c, s) && s.pc.ClearNext? && Enabled(c, s, RemoverStep)
    ensures Nearer(c, s, DoClearNext(s))
  {
  }

  lemma NextBlockNearer(c: Config, s: State)
    requires Inv(c, s) && RoundInv(c, s) && s.pc.NextBlock?
    ensures Nearer(c, s, DoNextBlock(s))
  {
  }

  lemma CheckNotifyNearer(c: Config, s: State)
    requires LoopInv(c, s) && s.pc.CheckNotify? && StealBlockOk(c, s) && s.stealHead < c.slots
    ensures Nearer(c, s, DoCheckNotify(s))
  {
    InBlockNearer(c, s, DoCheckNotify(s));
  }

  lemma ScanSlotNearer(c: Config, s: State)
    requires LoopInv(c, s) && s.pc.ScanSlot? && StealBlockOk(c, s) && s.stealHead <= c.slots
    ensures Nearer(c, s, DoScanSlot(c, s))
  {
    InBlockNearer(c, s, DoScanSlot(c, s));
  }

  lemma AdvanceNearer(c: Config, s: State)
    requires c.Valid() && Inv(c, s) && RoundInv(c, s) && s.pc.Advance?
    ensures Nearer(c, s, DoAdvance(c, s))
  {
  }

  /** Between two attempts either the same block goes on, or an attempt or a round is over. */
  lemma AgainNearer(c: Config, s: State)
    requires LoopInv(c, s) && s.pc.Again? && !s.foundAdd && s.stealHead <= c.slots
    ensures Nearer(c, s, DoAgain(c, s))
  {
    if s.stealBlock.Some? {
      InBlockNearer(c, s, DoAgain(c, s));
    }
  }

  lemma TakeNearer(c: Config, s: State)
    requires RoundInv(c, s) && s.pc.Take? && Enabled(c, s, RemoverStep)
    ensures Nearer(c, s, DoTake(c, s))
  {
  }

  /** Every step of the remover brings its call nearer to the end, unless the attempt has noticed that something was
      added since the second round began. */
  lemma RemoverNearer(c: Config, s: State)
    requires c.Valid() && Inv(c, s) && RoundInv(c, s) && Searching(s.pc) && Enabled(c, s, RemoverStep)
    requires !(s.pc.Again? && s.foundAdd)
    ensures Nearer(c, s, RemoverMoves(c, s))
  {
    if AtLink(s.pc) {
      LinkNearer(c, s);
    } else {
      match s.pc
      case Try => TryNearer(c, s);
      case LoadHead => LoadHeadNearer(c, s);
      case ClearNext(_) => ClearNextNearer(c, s);
      case NextBlock(_) => NextBlockNearer(c, s);
      case CheckNotify => CheckNotifyNearer(c, s);
      case ScanSlot => ScanSlotNearer(c, s);
      case Take(_) => TakeNearer(c, s);
      case Advance => AdvanceNearer(c, s);
      case Again => AgainNearer(c, s);
    }
  }

  lemma LinkNearer(c: Config, s: State)
    requires c.Valid() && Inv(c, s) && RoundInv(c, s) && Enabled(c, s, RemoverStep) && AtLink(s.pc)
    ensures Nearer(c, s, RemoverMoves(c, s))
  {
    match s.pc
    case LoadNext => LoadNextNearer(c, s);
    case Decide(_, _, _) => DecideNearer(c, s);
    case SetMark2 => SetMark2Nearer(c, s);
    case SetMark1 => SetMark1Nearer(c, s);
    case Unlink(_, _) => UnlinkNearer(c, s);
  }

  // ---------------------------------------------------------------- steps of the adder

  /** What the adder does puts nothing in the remover's way. */
  lemma PublishKeepsBlocks(c: Config, s: State, n: Id)
    requires c.Valid() && Inv(c, s) && s.adderPc.PublishBlock? && Enabled(c, s, AdderStep(n))
    ensures Blocks(AdderMoves(c, s, n)) == Blocks(s)
  {
    if Phase(s) == 1 {
      if s.pc.ClearNext? || s.pc.NextBlock? {
        if s.pc.next.Some? {
          ChainMember(c, s.blocks, s.chain, s.stealPrev.value);
          FromFirst(s.chain, s.addBlock.value, s.pc.next.value);
        }
      } else if s.stealBlock.Some? {
        FromFirst(s.chain, s.addBlock.value, s.stealBlock.value);
      }
    }
  }

  lemma AdderKeepsBlocks(c: Config, s: State, n: Id)
    requires c.Valid() && Inv(c, s) && Enabled(c, s, AdderStep(n))
    ensures Blocks(AdderMoves(c, s, n)) == Blocks(s)
  {
    if s.adderPc.PublishBlock? {
      PublishKeepsBlocks(c, s, n);
    } else {
      AdderFrame(c, s, n);
    }
  }

  lemma AdderKeepsMarks(c: Config, s: State, n: Id)
    requires c.Valid() && Inv(c, s) && Enabled(c, s, AdderStep(n)) && s.pc.LoadNext?
    ensures Marked(AdderMoves(c, s, n)) == Marked(s)
  {
    ChainMember(c, s.blocks, s.chain, s.stealBlock.value);
  }

  lemma SameRankFor(c: Config, s: State, s': State)
    requires SameRound(s, s') && LeavesRemover(s, s') && Blocks(s') == Blocks(s)
    requires s.pc.LoadNext? ==> Marked(s') == Marked(s)
    ensures RankOf(c, s') == RankOf(c, s)
  {
  }

  /** The adder puts nothing in the remover's way. */
  lemma AdderKeepsRank(c: Config, s: State, n: Id)
    requires c.Valid() && Inv(c, s) && Enabled(c, s, AdderStep(n))
    ensures RankOf(c, AdderMoves(c, s, n)) == RankOf(c, s)
  {
    AdderKeepsBlocks(c, s, n);
    if s.pc.LoadNext? {
      AdderKeepsMarks(c, s, n);
    }
    SameRankFor(c, s, AdderMoves(c, s, n));
  }

  lemma SameRank(c: Config, s: State, s': State)
    requires s' == s.(adderPc := s'.adderPc, addBlock := s'.addBlock, addHead := s'.addHead)
    ensures RankOf(c, s') == RankOf(c, s)
  {
  }

  lemma OthersKeepRank(c: Config, s: State, e: Event)
    requires c.Valid() && Inv(c, s) && Enabled(c, s, e) && Searching(s.pc) && e != RemoverStep
    ensures RankOf(c, Exec(c, s, e)) == RankOf(c, s)
  {
    if e.AdderStep? {
      AdderKeepsRank(c, s, e.fresh');
    } else {
      SameRank(c, s, Exec(c, s, e));
    }
  }

  // ---------------------------------------------------------------- runs

  /** In every run tryRemoveAny comes nearer to its end with every step of its own, and no step of the adder sets it
      back; only when it has noticed an add, by a block that nobody has marked since, it begins its rounds anew. */
  lemma Ends(c: Config, run: seq<State>, events: seq<Event>, j: nat)
    requires Run(c, run, events) && j < |events| && Searching(run[j].pc) && !(run[j].pc.Again? && run[j].foundAdd)
    ensures events[j] == RemoverStep ==> Nearer(c, run[j], run[j + 1])
    ensures events[j] != RemoverStep ==> RankOf(c, run[j + 1]) == RankOf(c, run[j])
  {
    RunKeepsInv(c, run, events, j);
    assert StepAt(c, run, events, j);
    if events[j] == RemoverStep {
      RemoverNearer(c, run[j]);
    } else {
      OthersKeepRank(c, run[j], events[j]);
    }
  }
}
