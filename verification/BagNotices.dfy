/** What the remover notices of the adder: an add to a block that it has marked, and nothing else. */
module BagNotices {
  import opened Options
  import opened BagMachine
  import opened BagChain
  import opened BagInvariant
  import opened BagEmptiness
  import opened BagTheorems

  /** The event takes the mark off block b, on the way to putting an item there, or makes the block. */
  ghost predicate Unmarks(c: Config, s: State, e: Event, b: Id) {
    && e.AdderStep?
    && ((s.adderPc.Notify? && s.addBlock == Some(b))
        || (s.adderPc.Check? && s.addHead == c.slots && e.fresh' == b))
  }

  /** The remover, in the first round, marks block b. */
  ghost predicate Marks(s: State, e: Event, b: Id) {
    e == RemoverStep && s.pc.CheckNotify? && s.round == 1 && s.stealBlock == Some(b)
  }

  ghost predicate HasMark(s: State, b: Id) {
    b in s.blocks && s.blocks[b].notified
  }

  // ---------------------------------------------------------------- the mark

  lemma AdderStepMark(c: Config, s: State, n: Id, b: Id)
    requires c.Valid() && Enabled(c, s, AdderStep(n)) && b in s.blocks
    ensures var s' := AdderMoves(c, s, n);
            b in s'.blocks && HasMark(s', b) == (HasMark(s, b) && !Unmarks(c, s, AdderStep(n), b))
  {
  }

  ghost predicate SameMarks(s: State, s': State) {
    forall b | b in s.blocks :: b in s'.blocks && s'.blocks[b].notified == s.blocks[b].notified
  }

  lemma DecideSameMarks(s: State)
    requires s.pc.Decide?
    ensures SameMarks(s, DoDecide(s))
  {
  }

  lemma SetMark2SameMarks(s: State)
    requires StealPrevOk(s)
    ensures SameMarks(s, DoSetMark2(s))
  {
  }

  lemma UnlinkSameMarks(s: State)
    requires s.pc.Unlink? && StealPrevOk(s) && s.stealBlock.Some?
    ensures SameMarks(s, DoUnlink(s))
  {
  }

  lemma LinkSameMarks(c: Config, s: State)
    requires c.Valid() && Enabled(c, s, RemoverStep) && AtLink(s.pc)
    ensures SameMarks(s, RemoverMoves(c, s))
  {
    match s.pc
    case LoadNext => assert SameMarks(s, DoLoadNext(s));
    case Decide(_, _, _) => DecideSameMarks(s);
    case SetMark2 => SetMark2SameMarks(s);
    case SetMark1 => assert SameMarks(s, DoSetMark1(s));
    case Unlink(_, _) => UnlinkSameMarks(s);
  }

  lemma BetweenSameMarks(c: Config, s: State)
    requires c.Valid() && Enabled(c, s, RemoverStep) && (s.pc.Take? || s.pc.Advance? || s.pc.Again?)
    ensures SameMarks(s, RemoverMoves(c, s))
  {
    match s.pc
    case Take(_) => assert SameMarks(s, DoTake(c, s));
    case Advance => assert SameMarks(s, DoAdvance(c, s));
    case Again => assert SameMarks(s, DoAgain(c, s));
  }

  lemma ScanSameMarks(c: Config, s: State)
    requires c.Valid() && Enabled(c, s, RemoverStep) && !AtLink(s.pc) && !s.pc.CheckNotify?
    ensures SameMarks(s, RemoverMoves(c, s))
  {
    match s.pc
    case Try => assert SameMarks(s, DoTry(c, s));
    case LoadHead => assert SameMarks(s, DoLoadHead(c, s));
    case ClearNext(_) => assert SameMarks(s, DoClearNext(s));
    case NextBlock(_) => assert SameMarks(s, DoNextBlock(s));
    case ScanSlot => assert SameMarks(s, DoScanSlot(c, s));
    case Return(_) =>
    case Contended =>
    case _ => BetweenSameMarks(c, s);
  }

  lemma RemoverStepMark(c: Config, s: State, b: Id)
    requires c.Valid() && Enabled(c, s, RemoverStep) && b in s.blocks
    ensures var s' := RemoverMoves(c, s);
            b in s'.blocks && HasMark(s', b) == (HasMark(s, b) || Marks(s, RemoverStep, b))
  {
    if AtLink(s.pc) {
      LinkSameMarks(c, s);
    } else if s.pc.CheckNotify? {
      assert RemoverMoves(c, s) == DoCheckNotify(s);
    } else {
      ScanSameMarks(c, s);
    }
  }

  lemma StepMark(c: Config, s: State, e: Event, b: Id)
    requires c.Valid() && Enabled(c, s, e) && b in s.blocks
    ensures var s' := Exec(c, s, e);
            && b in s'.blocks
            && HasMark(s', b) == ((HasMark(s, b) && !Unmarks(c, s, e, b)) || Marks(s, e, b))
  {
    match e
    case AdderStep(n) => AdderStepMark(c, s, n, b);
    case RemoverStep => RemoverStepMark(c, s, b);
    case _ =>
  }

  lemma NewBlockUnmarked(c: Config, s: State, n: Id)
    requires c.Valid() && Enabled(c, s, AdderStep(n)) && s.adderPc.Check? && s.addHead == c.slots
    ensures n in Exec(c, s, AdderStep(n)).blocks && !HasMark(Exec(c, s, AdderStep(n)), n)
  {
  }

  lemma UnmarksNow(c: Config, s: State, e: Event, b: Id)
    requires c.Valid() && Enabled(c, s, e) && Unmarks(c, s, e, b)
    ensures b in Exec(c, s, e).blocks && !HasMark(Exec(c, s, e), b)
  {
    if s.adderPc.Notify? {
      StepMark(c, s, e, b);
    } else {
      NewBlockUnmarked(c, s, b);
    }
  }

  lemma MarkStepAt(c: Config, run: seq<State>, events: seq<Event>, j: nat, b: Id)
    requires Run(c, run, events) && j < |events| && b in run[j].blocks
    ensures b in run[j + 1].blocks
    ensures HasMark(run[j + 1], b)
              == ((HasMark(run[j], b) && !Unmarks(c, run[j], events[j], b)) || Marks(run[j], events[j], b))
  {
    assert StepAt(c, run, events, j);
    StepMark(c, run[j], events[j], b);
  }

  lemma {:induction false} StaysMarked(c: Config, run: seq<State>, events: seq<Event>, i: nat, j: nat, b: Id)
    requires Run(c, run, events) && i <= j < |run| && HasMark(run[i], b)
    requires forall k | i <= k < j :: !Unmarks(c, run[k], events[k], b)
    ensures HasMark(run[j], b)
  {
    if i < j {
      StaysMarked(c, run, events, i, j - 1, b);
      MarkStepAt(c, run, events, j - 1, b);
    }
  }

  lemma {:induction false} StaysUnmarked(c: Config, run: seq<State>, events: seq<Event>, i: nat, j: nat, b: Id)
    requires Run(c, run, events) && i <= j < |run| && b in run[i].blocks && !HasMark(run[i], b)
    requires forall k | i <= k < j :: !Marks(run[k], events[k], b)
    ensures b in run[j].blocks && !HasMark(run[j], b)
  {
    if i < j {
      StaysUnmarked(c, run, events, i, j - 1, b);
      MarkStepAt(c, run, events, j - 1, b);
    }
  }

  // ---------------------------------------------------------------- what an attempt notices

  /** An attempt has noticed an add only behind its look at the mark. */
  ghost predicate NoticedLate(s: State) {
    s.foundAdd ==> s.pc.ScanSlot? || s.pc.Take? || s.pc.Again? || s.pc.Try? || s.pc.Return? || s.pc.Away?
  }

  lemma StepNoticedLate(c: Config, s: State, e: Event)
    requires c.Valid() && NoticedLate(s) && Enabled(c, s, e)
    ensures NoticedLate(Exec(c, s, e))
  {
    if e == RemoverStep {
      match s.pc
      case Decide(_, _, _) => assert NoticedLate(DoDecide(s));
      case Again => assert NoticedLate(DoAgain(c, s));
      case CheckNotify => assert NoticedLate(DoCheckNotify(s));
      case ScanSlot => assert NoticedLate(DoScanSlot(c, s));
      case _ =>
    }
  }

  lemma {:induction false} RunNoticesLate(c: Config, run: seq<State>, events: seq<Event>, j: nat)
    requires Run(c, run, events) && j < |run|
    ensures NoticedLate(run[j])
  {
    if j > 0 {
      RunNoticesLate(c, run, events, j - 1);
      assert StepAt(c, run, events, j - 1);
      StepNoticedLate(c, run[j - 1], events[j - 1]);
    }
  }

  /** The remover looks at block b's mark in a round after the first. */
  ghost predicate LooksAt(run: seq<State>, events: seq<Event>, j: nat, b: Id)
    requires j < |events| && |run| == |events| + 1
  {
    events[j] == RemoverStep && run[j].pc.CheckNotify? && run[j].round > 1 && run[j].stealBlock == Some(b)
  }

  lemma LookFinds(c: Config, run: seq<State>, events: seq<Event>, j: nat, b: Id)
    requires Run(c, run, events) && j < |events| && LooksAt(run, events, j, b)
    ensures b in run[j].blocks && run[j + 1].foundAdd == !HasMark(run[j], b)
  {
    assert StepAt(c, run, events, j);
    RunNoticesLate(c, run, events, j);
    assert run[j + 1] == DoCheckNotify(run[j]);
  }

  /** An add to the block since it was marked last is noticed, and so is a block made since. */
  lemma NoticesAdd(c: Config, run: seq<State>, events: seq<Event>, i: nat, j: nat, b: Id)
    requires Run(c, run, events) && i < j < |events| && LooksAt(run, events, j, b)
    requires Unmarks(c, run[i], events[i], b) && forall k | i < k < j :: !Marks(run[k], events[k], b)
    ensures run[j + 1].foundAdd
  {
    assert StepAt(c, run, events, i);
    UnmarksNow(c, run[i], events[i], b);
    StaysUnmarked(c, run, events, i + 1, j, b);
    LookFinds(c, run, events, j, b);
  }

  /** Without one there is nothing to notice. */
  lemma NoticesNothingElse(c: Config, run: seq<State>, events: seq<Event>, i: nat, j: nat, b: Id)
    requires Run(c, run, events) && i < j < |events| && LooksAt(run, events, j, b)
    requires Marks(run[i], events[i], b) && forall k | i < k < j :: !Unmarks(c, run[k], events[k], b)
    ensures !run[j + 1].foundAdd
  {
    assert StepAt(c, run, events, i);
    MarkStepAt(c, run, events, i, b);
    StaysMarked(c, run, events, i + 1, j, b);
    LookFinds(c, run, events, j, b);
  }

  ghost predicate Carries(s: State) {
    s.foundAdd && (s.pc.ScanSlot? || s.pc.Again?)
  }

  lemma RemoverCarries(c: Config, s: State)
    requires c.Valid() && NoticedLate(s) && Enabled(c, s, RemoverStep) && !s.pc.CheckNotify?
    requires Carries(RemoverMoves(c, s))
    ensures Carries(s)
  {
  }

  /** The steps between the look and the end of the attempt. */
  lemma CarriedStep(c: Config, s: State, e: Event)
    requires c.Valid() && NoticedLate(s) && Enabled(c, s, e) && Carries(Exec(c, s, e))
    ensures Exec(c, s, e).round == s.round
    ensures || Carries(s)
            || (e == RemoverStep && s.pc.CheckNotify? && s.round > 1 && s.stealBlock.Some?
                && !HasMark(s, s.stealBlock.value))
  {
    if e == RemoverStep {
      if s.pc.CheckNotify? {
        assert Exec(c, s, e) == DoCheckNotify(s);
      } else {
        RemoverCarries(c, s);
      }
    }
  }

  /** When the rounds begin anew, the attempt has looked at a block in a later round and found its mark gone. */
  lemma {:induction false} NoticedSomewhere(c: Config, run: seq<State>, events: seq<Event>, j: nat)
    returns (i: nat, b: Id)
    requires Run(c, run, events) && j < |run| && Carries(run[j])
    ensures i < j && WithinCall(run, i, j) && run[j].round == run[i].round
    ensures LooksAt(run, events, i, b) && !HasMark(run[i], b)
  {
    assert j > 0;
    assert StepAt(c, run, events, j - 1);
    RunNoticesLate(c, run, events, j - 1);
    CarriedStep(c, run[j - 1], events[j - 1]);
    if run[j - 1].pc.CheckNotify? {
      i, b := j - 1, run[j - 1].stealBlock.value;
    } else {
      i, b := NoticedSomewhere(c, run, events, j - 1);
    }
  }
}
