/** Why a call of tryRemoveAny can always end: with the adder at rest, the remover begins its rounds anew at most
    once. */
module BagSolo {
  import opened Options
  import opened BagMachine
  import opened BagChain
  import opened BagInvariant
  import opened BagEmptiness
  import opened BagTheorems
  import opened BagEnds
  import opened BagNotices

  // ---------------------------------------------------------------- blocks that the remover has marked

  ghost predicate AllMarked(s: State) {
    forall b | b in s.chain :: HasMark(s, b)
  }

  /** The blocks without a mark lie from block d on. */
  ghost predicate UnmarkedFrom(s: State, d: Id) {
    forall b | b in s.chain && !HasMark(s, b) :: b in From(s.chain, d)
  }

  /** The remover has yet to mark the block that it is in. */
  predicate Pending(c: Config, s: State) {
    s.pc.CheckNotify? || ((s.pc.Try? || s.pc.Again?) && s.stealHead < c.slots)
  }

  /** In the first round the blocks without a mark lie where the remover has yet to come. */
  ghost predicate FirstRound(c: Config, s: State) {
    if s.passed then AllMarked(s)
    else if s.pc.ClearNext? || s.pc.NextBlock? then
      if s.pc.next == None then AllMarked(s) else UnmarkedFrom(s, s.pc.next.value)
    else if s.pc.Advance? then s.stealIndex == c.adder ==> AllMarked(s)
    else s.stealBlock.Some? ==> InBlockMarks(c, s)
  }

  ghost predicate InBlockMarks(c: Config, s: State)
    requires s.stealBlock.Some?
  {
    UnmarkedFrom(s, s.stealBlock.value) && (Pending(c, s) || HasMark(s, s.stealBlock.value))
  }

  /** Later rounds find every block marked, and notice nothing. */
  ghost predicate Covered(c: Config, s: State) {
    && (s.round == 1 ==> FirstRound(c, s))
    && (s.round > 1 ==> AllMarked(s))
    && (s.foundAdd ==> s.pc.Try? || s.pc.Return? || s.pc.Away?)
  }

  ghost predicate MarksStay(s: State, s': State) {
    forall b | HasMark(s, b) :: HasMark(s', b)
  }

  // ---------------------------------------------------------------- steps of the remover

  predicate BetweenBlocks(pc: RemoverPc) {
    pc.ClearNext? || pc.NextBlock? || pc.Advance?
  }

  /** The steps that leave the remover at the block where it is. */
  lemma SameBlockCovered(c: Config, s: State, s': State)
    requires Covered(c, s) && MarksStay(s, s') && !s'.foundAdd
    requires s'.chain == s.chain && s'.round == s.round && s'.passed == s.passed && s'.stealBlock == s.stealBlock
    requires !BetweenBlocks(s.pc) && !BetweenBlocks(s'.pc)
    requires s.round == 1 && Pending(c, s) ==>
               Pending(c, s') || (s'.stealBlock.Some? && HasMark(s', s'.stealBlock.value))
    ensures Covered(c, s')
  {
  }

  lemma TryCovered(c: Config, s: State)
    requires c.Valid() && Inv(c, s) && Covered(c, s) && s.pc.Try?
    ensures Covered(c, DoTry(c, s))
  {
    if s.stealBlock.Some? {
      SameBlockCovered(c, s, DoTry(c, s));
    }
  }

  lemma LoadHeadCovered(c: Config, s: State)
    requires c.Valid() && Inv(c, s) && Covered(c, s) && s.pc.LoadHead?
    ensures Covered(c, DoLoadHead(c, s))
  {
    if s.stealIndex == c.adder && s.head.Some? {
      assert From(s.chain, s.head.value) == s.chain;
    }
  }

  /** The block that the remover leaves is marked, so those without a mark lie from the next one on. */
  lemma MarkedBehind(c: Config, s: State)
    requires Inv(c, s) && s.stealBlock.Some? && s.stealBlock.value in s.chain && s.stealBlock.value in s.blocks
    requires UnmarkedFrom(s, s.stealBlock.value) && HasMark(s, s.stealBlock.value)
    ensures var next := s.blocks[s.stealBlock.value].next;
            if next == None then AllMarked(s) else UnmarkedFrom(s, next.value)
  {
    FromNext(c, s.blocks, s.chain, s.stealBlock.value);
  }

  lemma StepOnCovered(c: Config, s: State, s': State)
    requires c.Valid() && Inv(c, s) && Covered(c, s) && s.pc.Decide?
    requires s' == s.(stealPrev := s.stealBlock, pc := NextBlock(s.pc.next))
    ensures Covered(c, s')
  {
    if s.round == 1 && !s.passed {
      MarkedBehind(c, s);
    }
  }

  lemma DecideCovered(c: Config, s: State)
    requires c.Valid() && Inv(c, s) && Covered(c, s) && s.pc.Decide?
    ensures Covered(c, DoDecide(s))
  {
    DecideUncontended(c, s);
    if s.stealPrev == None || s.pc.next == None {
      StepOnCovered(c, s, DoDecide(s));
    } else {
      SameBlockCovered(c, s, DoDecide(s));
    }
  }

  lemma SetMark2Covered(c: Config, s: State)
    requires c.Valid() && Inv(c, s) && Covered(c, s) && s.pc.SetMark2? && Enabled(c, s, RemoverStep)
    ensures Covered(c, DoSetMark2(s))
  {
    SetMark2SameMarks(s);
    SameBlockCovered(c, s, DoSetMark2(s));
  }

  lemma SetMark1Covered(c: Config, s: State)
    requires c.Valid() && Inv(c, s) && Covered(c, s) && s.pc.SetMark1? && Enabled(c, s, RemoverStep)
    ensures Covered(c, DoSetMark1(s))
  {
    SameBlockCovered(c, s, DoSetMark1(s));
  }

  lemma UnlinkCovered(c: Config, s: State)
    requires c.Valid() && Inv(c, s) && Covered(c, s) && s.pc.Unlink? && Enabled(c, s, RemoverStep)
    ensures Covered(c, DoUnlink(s))
  {
    UnlinkSucceeds(c, s);
    UnlinkSameMarks(s);
    WithoutMembers(c, s.blocks, s.chain, s.stealBlock.value);
    if s.round == 1 && !s.passed {
      MarkedBehind(c, s);
      FromWithout(c, s.blocks, s.chain, s.stealBlock.value);
    }
  }

  lemma ClearNextCovered(c: Config, s: State)
    requires Covered(c, s) && s.pc.ClearNext? && Enabled(c, s, RemoverStep)
    ensures Covered(c, DoClearNext(s))
  {
  }

  lemma NextBlockCovered(c: Config, s: State)
    requires Covered(c, s) && s.pc.NextBlock?
    ensures Covered(c, DoNextBlock(s))
  {
  }

  lemma CheckNotifyCovered(c: Config, s: State)
    requires c.Valid() && Inv(c, s) && Covered(c, s) && s.pc.CheckNotify? && Enabled(c, s, RemoverStep)
    ensures Covered(c, DoCheckNotify(s))
  {
    SameBlockCovered(c, s, DoCheckNotify(s));
  }

  lemma ScanSlotCovered(c: Config, s: State)
    requires Covered(c, s) && s.pc.ScanSlot? && Enabled(c, s, RemoverStep)
    ensures Covered(c, DoScanSlot(c, s))
  {
    SameBlockCovered(c, s, DoScanSlot(c, s));
  }

  lemma AdvanceCovered(c: Config, s: State)
    requires c.Valid() && Covered(c, s) && s.pc.Advance?
    ensures Covered(c, DoAdvance(c, s))
  {
  }

  lemma AgainCovered(c: Config, s: State)
    requires c.Valid() && Inv(c, s) && RoundInv(c, s) && Covered(c, s) && s.pc.Again?
    ensures DoAgain(c, s).pc.Try? ==> Covered(c, DoAgain(c, s))
  {
  }

  /** The rounds that begin anew meet the marks that they make themselves. */
  lemma AnewCovered(c: Config, s: State)
    requires c.Valid() && s.pc.Again? && s.foundAdd
    ensures Covered(c, DoAgain(c, s)) && DoAgain(c, s).pc.Try?
  {
  }

  lemma LinkCovered(c: Config, s: State)
    requires c.Valid() && Inv(c, s) && Covered(c, s) && Enabled(c, s, RemoverStep) && AtLink(s.pc)
    ensures Covered(c, RemoverMoves(c, s))
  {
    match s.pc
    case LoadNext => SameBlockCovered(c, s, DoLoadNext(s));
    case Decide(_, _, _) => DecideCovered(c, s);
    case SetMark2 => SetMark2Covered(c, s);
    case SetMark1 => SetMark1Covered(c, s);
    case Unlink(_, _) => UnlinkCovered(c, s);
  }

  lemma LastCovered(c: Config, s: State)
    requires c.Valid() && Inv(c, s) && RoundInv(c, s) && Covered(c, s) && Enabled(c, s, RemoverStep)
    requires s.pc.Take? || s.pc.Advance? || s.pc.Again? || s.pc.Contended?
    ensures Searching(RemoverMoves(c, s).pc) ==> Covered(c, RemoverMoves(c, s))
  {
    match s.pc
    case Advance => AdvanceCovered(c, s);
    case Again => AgainCovered(c, s);
    case _ =>
  }

  lemma EnterCovered(c: Config, s: State)
    requires c.Valid() && Inv(c, s) && Covered(c, s) && Enabled(c, s, RemoverStep)
    requires s.pc.LoadHead? || s.pc.ClearNext? || s.pc.NextBlock?
    ensures Covered(c, RemoverMoves(c, s))
  {
    match s.pc
    case LoadHead => LoadHeadCovered(c, s);
    case ClearNext(_) => ClearNextCovered(c, s);
    case NextBlock(_) => NextBlockCovered(c, s);
  }

  lemma ScanCovered(c: Config, s: State)
    requires c.Valid() && Inv(c, s) && Covered(c, s) && Enabled(c, s, RemoverStep)
    requires s.pc.Try? || s.pc.CheckNotify? || s.pc.ScanSlot?
    ensures Covered(c, RemoverMoves(c, s))
  {
    match s.pc
    case Try => TryCovered(c, s);
    case CheckNotify => CheckNotifyCovered(c, s);
    case ScanSlot => ScanSlotCovered(c, s);
  }

  lemma RemoverCovered(c: Config, s: State)
    requires c.Valid() && Inv(c, s) && RoundInv(c, s) && Covered(c, s) && Enabled(c, s, RemoverStep)
    requires Searching(s.pc)
    ensures Searching(RemoverMoves(c, s).pc) ==> Covered(c, RemoverMoves(c, s))
  {
    if AtLink(s.pc) {
      LinkCovered(c, s);
    } else if s.pc.LoadHead? || s.pc.ClearNext? || s.pc.NextBlock? {
      EnterCovered(c, s);
    } else if s.pc.Try? || s.pc.CheckNotify? || s.pc.ScanSlot? {
      ScanCovered(c, s);
    } else {
      LastCovered(c, s);
    }
  }

  // ---------------------------------------------------------------- the call ends

  /** The remover alone takes n steps from s to s'. */
  ghost predicate Alone(c: Config, s: State, n: nat, s': State)
    requires c.Valid()
    decreases n
  {
    if n == 0 then s' == s else Enabled(c, s, RemoverStep) && Alone(c, RemoverMoves(c, s), n - 1, s')
  }

  ghost function Uncovered(c: Config, s: State): nat {
    if Covered(c, s) then 0 else 1
  }

  /** One step, which leads to less. */
  lemma LessRemains(c: Config, s: State)
    requires c.Valid() && Inv(c, s) && RoundInv(c, s) && Searching(s.pc) && Enabled(c, s, RemoverStep)
    ensures var s' := RemoverMoves(c, s);
            Searching(s'.pc) ==>
              || Uncovered(c, s') < Uncovered(c, s)
              || (Uncovered(c, s') == Uncovered(c, s) && Nearer(c, s, s'))
  {
    if s.pc.Again? && s.foundAdd {
      AnewCovered(c, s);
    } else {
      RemoverNearer(c, s);
      if Covered(c, s) {
        RemoverCovered(c, s);
      }
    }
  }

  /** The call is under way, and k and r tell how far it has come. */
  ghost predicate UnderWay(c: Config, s: State, k: nat, r: Rank) {
    Inv(c, s) && RoundInv(c, s) && Searching(s.pc) && k == Uncovered(c, s) && r == RankOf(c, s)
  }

  lemma StillCalled(c: Config, s: State)
    requires c.Valid() && Inv(c, s) && RoundInv(c, s) && Searching(s.pc) && Enabled(c, s, RemoverStep)
    ensures var s' := RemoverMoves(c, s);
            Inv(c, s') && RoundInv(c, s') && (s'.pc.Return? || Searching(s'.pc))
  {
    StepKeepsInv(c, s, RemoverStep);
    StepKeepsRound(c, s, RemoverStep);
  }

  /** Alone, the remover comes to an answer. */
  ghost predicate EndsAlone(c: Config, s: State)
    requires c.Valid()
  {
    exists n: nat, s' :: Alone(c, s, n, s') && s'.pc.Return?
  }

  lemma EndsAfterStep(c: Config, s: State)
    requires c.Valid() && Enabled(c, s, RemoverStep)
    requires RemoverMoves(c, s).pc.Return? || EndsAlone(c, RemoverMoves(c, s))
    ensures EndsAlone(c, s)
  {
    var next := RemoverMoves(c, s);
    if next.pc.Return? {
      assert Alone(c, next, 0, next);
      assert Alone(c, s, 1, next);
    } else {
      var n: nat, s' :| Alone(c, next, n, s') && s'.pc.Return?;
      assert Alone(c, s, n + 1, s');
    }
  }

  /** One step ends the call, or leaves less of it. */
  lemma OneStep(c: Config, s: State, k: nat, r: Rank) returns (s': State, k': nat, r': Rank)
    requires c.Valid() && UnderWay(c, s, k, r)
    ensures || EndsAlone(c, s)
            || (&& UnderWay(c, s', k', r') && (k' < k || (k' == k && Below(r', r)))
                && (EndsAlone(c, s') ==> EndsAlone(c, s)))
  {
    InvEnabled(c, s, 0);
    LessRemains(c, s);
    StillCalled(c, s);
    s' := RemoverMoves(c, s);
    k', r' := Uncovered(c, s'), RankOf(c, s');
    if s'.pc.Return? || EndsAlone(c, s') {
      EndsAfterStep(c, s);
    }
  }

  lemma {:induction false} CallEndsAlone(c: Config, s: State, k: nat, r: Rank)
    requires c.Valid() && UnderWay(c, s, k, r)
    ensures EndsAlone(c, s)
    decreases k, r.rounds, r.tries, r.phase, r.blocks, r.slots, r.steps
  {
    var s', k', r' := OneStep(c, s, k, r);
    if !EndsAlone(c, s) {
      CallEndsAlone(c, s', k', r');
    }
  }

  /** From every state of every run, whatever the adder was doing, the remover that runs alone completes its call. */
  lemma SoloEnds(c: Config, run: seq<State>, events: seq<Event>, j: nat)
    requires Run(c, run, events) && j < |run| && Searching(run[j].pc)
    ensures EndsAlone(c, run[j])
  {
    RunKeepsInv(c, run, events, j);
    CallEndsAlone(c, run[j], Uncovered(c, run[j]), RankOf(c, run[j]));
  }
}
