/** What the bag's callers get: whole calls of add and of tryRemoveAny. */
module BagCalls {
  import opened Options
  import opened BagMachine
  import opened BagChain
  import opened BagInvariant
  import opened BagTheorems

  // ---------------------------------------------------------------- tryRemoveAny

  /** The remover has been inside the call of tryRemoveAny that event i began. */
  ghost predicate TryCall(run: seq<State>, events: seq<Event>, i: nat, j: nat) {
    && i < j < |run| == |events| + 1 && events[i] == TryRemoveAny
    && forall l {:trigger run[l]} | i < l <= j :: !run[l].pc.Away?
  }

  /** How often the bag holds v. */
  ghost function Holdings(s: State, v: Value): nat {
    Count(s.blocks, s.chain, v)
  }

  /** From instant l to the next one v, which is an item, leaves the bag, out of one slot, and all else stays. */
  ghost predicate Leaves(c: Config, run: seq<State>, events: seq<Event>, l: nat, v: Value) {
    && l < |events| && |run| == |events| + 1 && events[l] == RemoverStep && v != c.sentinel
    && Holdings(run[l], v) == Holdings(run[l + 1], v) + 1
    && forall u | u != v && u != c.sentinel :: Holdings(run[l + 1], u) == Holdings(run[l], u)
  }

  /** At instant l the remover takes v. */
  ghost predicate Takes(run: seq<State>, events: seq<Event>, l: nat, v: Value) {
    l < |events| && l < |run| && events[l] == RemoverStep && run[l].pc == Take(v)
  }

  /** What the remover has done of its call, when it began with base handed out. */
  ghost predicate Removing(run: seq<State>, events: seq<Event>, l: nat, s: State, base: seq<Value>) {
    match s.pc
    case Away => false
    case Return(Some(v)) => s.returned == base + [v] && Takes(run, events, l, v)
    case _ => s.returned == base
  }

  /** A thread inside a call makes steps only, and the adder leaves it alone. */
  lemma TryStep(c: Config, s: State, e: Event)
    requires c.Valid() && Enabled(c, s, e) && !s.pc.Away? && !Exec(c, s, e).pc.Away?
    ensures e != TryRemoveAny
    ensures e != RemoverStep ==> Exec(c, s, e).pc == s.pc && Exec(c, s, e).returned == s.returned
    ensures e == RemoverStep ==> !s.pc.Return?
  {
  }

  lemma TryEvent(c: Config, run: seq<State>, events: seq<Event>, i: nat, j: nat)
    requires Run(c, run, events) && TryCall(run, events, i, j) && i + 1 < j
    ensures TryCall(run, events, i, j - 1)
    ensures events[j - 1] == RemoverStep ==> !run[j - 1].pc.Return?
    ensures events[j - 1] != RemoverStep ==>
              run[j].pc == run[j - 1].pc && run[j].returned == run[j - 1].returned
  {
    assert StepAt(c, run, events, j - 1);
    assert !run[j - 1].pc.Away?;
    TryStep(c, run[j - 1], events[j - 1]);
  }

  lemma OnlyTakeReturns(c: Config, s: State)
    requires c.Valid() && Enabled(c, s, RemoverStep) && NothingYet(s.pc) && !s.pc.Take? && !s.pc.Return?
    ensures NothingYet(RemoverMoves(c, s).pc)
  {
    match s.pc
    case Try => assert NothingYet(DoTry(c, s).pc);
    case LoadHead => assert NothingYet(DoLoadHead(c, s).pc);
    case LoadNext => assert NothingYet(DoLoadNext(s).pc);
    case Decide(_, _, _) => assert NothingYet(DoDecide(s).pc);
    case SetMark2 => assert NothingYet(DoSetMark2(s).pc);
    case SetMark1 => assert NothingYet(DoSetMark1(s).pc);
    case Unlink(_, _) => assert NothingYet(DoUnlink(s).pc);
    case ClearNext(_) => assert NothingYet(DoClearNext(s).pc);
    case NextBlock(_) => assert NothingYet(DoNextBlock(s).pc);
    case CheckNotify => assert NothingYet(DoCheckNotify(s).pc);
    case ScanSlot => assert NothingYet(DoScanSlot(c, s).pc);
    case Advance => assert NothingYet(DoAdvance(c, s).pc);
    case Again => assert NothingYet(DoAgain(c, s).pc);
    case _ =>
  }

  /** The remover is inside its call and has not taken anything. */
  predicate NothingYet(pc: RemoverPc) {
    !pc.Away? && (pc.Return? ==> pc.result == None)
  }

  lemma TakeLeaves(c: Config, run: seq<State>, events: seq<Event>, l: nat)
    requires Run(c, run, events) && l < |events| && events[l] == RemoverStep && run[l].pc.Take?
    ensures Leaves(c, run, events, l, run[l].pc.x)
  {
    RunKeepsInv(c, run, events, l);
    assert StepAt(c, run, events, l);
    var s, s' := run[l], run[l + 1];
    forall v ensures Holdings(s', v) + (if v == s.pc.x then 1 else 0)
                     == Holdings(s, v) + (if v == c.sentinel then 1 else 0)
    {
      CountWrite(c, s.blocks, s'.blocks, s.chain, s.stealBlock.value, s.stealHead, c.sentinel, v);
    }
  }

  lemma TryMoves(c: Config, run: seq<State>, events: seq<Event>, l: nat, j: nat, base: seq<Value>) returns (l': nat)
    requires Run(c, run, events) && j < |events| && events[j] == RemoverStep && !run[j].pc.Return?
    requires Removing(run, events, l, run[j], base)
    ensures l' == (if run[j].pc.Take? then j else l)
    ensures run[j + 1].pc.Return? && run[j + 1].pc.result.Some? ==> run[j].pc.Take?
    ensures Removing(run, events, l', run[j + 1], base)
  {
    l' := if run[j].pc.Take? then j else l;
    assert StepAt(c, run, events, j);
    if !run[j].pc.Take? {
      OnlyTakeReturns(c, run[j]);
    }
  }

  lemma {:induction false} TrySoFar(c: Config, run: seq<State>, events: seq<Event>, i: nat, j: nat) returns (l: nat)
    requires Run(c, run, events) && TryCall(run, events, i, j)
    ensures i < l < j || !(run[j].pc.Return? && run[j].pc.result.Some?)
    ensures Removing(run, events, l, run[j], run[i].returned)
  {
    l := 0;
    if i + 1 == j {
      assert StepAt(c, run, events, i);
    } else {
      TryEvent(c, run, events, i, j);
      l := TrySoFar(c, run, events, i, j - 1);
      if events[j - 1] == RemoverStep {
        l := TryMoves(c, run, events, l, j - 1, run[i].returned);
      }
    }
  }

  /** A tryRemoveAny that succeeds hands out an item, not the sentinel, which left the bag, and nothing else did, at one
      instant l within the call. */
  lemma RemovesItem(c: Config, run: seq<State>, events: seq<Event>, i: nat, j: nat, v: Value) returns (l: nat)
    requires Run(c, run, events) && TryCall(run, events, i, j) && run[j].pc == Return(Some(v))
    ensures i < l < j && Leaves(c, run, events, l, v)
    ensures run[j].returned == run[i].returned + [v]
  {
    l := TrySoFar(c, run, events, i, j);
    TakeLeaves(c, run, events, l);
  }

  /** One that fails hands out nothing; FalseMeansEmpty tells when the bag was empty. */
  lemma FailureRemovesNothing(c: Config, run: seq<State>, events: seq<Event>, i: nat, j: nat)
    requires Run(c, run, events) && TryCall(run, events, i, j) && run[j].pc == Return(None)
    ensures run[j].returned == run[i].returned
  {
    var l := TrySoFar(c, run, events, i, j);
  }

  // ---------------------------------------------------------------- add

  /** The adder has been inside the call of add that event i began. */
  ghost predicate AddCall(run: seq<State>, events: seq<Event>, i: nat, j: nat) {
    && i < j < |run| == |events| + 1 && events[i].Add?
    && forall l {:trigger run[l]} | i < l <= j :: !run[l].adderPc.Ready?
  }

  /** The adder works on the item and has not added it yet. */
  predicate Adding(s: State, base: seq<Value>, item: Value) {
    s.added == base && !s.adderPc.Ready? && s.adderPc.item == item
  }

  lemma AddStep(c: Config, s: State, e: Event, base: seq<Value>, item: Value)
    requires c.Valid() && Enabled(c, s, e) && Adding(s, base, item) && !Exec(c, s, e).adderPc.Ready?
    ensures Adding(Exec(c, s, e), base, item)
  {
    if e.RemoverStep? {
      assert LeavesAdder(s, RemoverMoves(c, s));
    }
  }

  lemma {:induction false} AddSoFar(c: Config, run: seq<State>, events: seq<Event>, i: nat, j: nat)
    requires Run(c, run, events) && AddCall(run, events, i, j)
    ensures Adding(run[j], run[i].added, events[i].item)
  {
    assert StepAt(c, run, events, j - 1);
    if i + 1 < j {
      assert !run[j - 1].adderPc.Ready?;
      AddSoFar(c, run, events, i, j - 1);
      AddStep(c, run[j - 1], events[j - 1], run[i].added, events[i].item);
    }
  }

  /** From a state to the next the item enters the bag, into one slot, and all else stays. */
  ghost predicate Enters(c: Config, s: State, s': State, item: Value) {
    && Holdings(s', item) == Holdings(s, item) + 1
    && forall u | u != item && u != c.sentinel :: Holdings(s', u) == Holdings(s, u)
  }

  lemma WriteEnters(c: Config, s: State, n: Id)
    requires c.Valid() && Inv(c, s) && s.adderPc.Write? && Enabled(c, s, AdderStep(n)) && s.adderPc.item != c.sentinel
    ensures Enters(c, s, AdderMoves(c, s, n), s.adderPc.item)
  {
    var s' := AdderMoves(c, s, n);
    forall v ensures Holdings(s', v) + (if v == c.sentinel then 1 else 0)
                     == Holdings(s, v) + (if v == s.adderPc.item then 1 else 0)
    {
      CountWrite(c, s.blocks, s'.blocks, s.chain, s.addBlock.value, s.addHead, s.adderPc.item, v);
    }
  }

  lemma OnlyWriteReturns(c: Config, s: State, e: Event)
    requires c.Valid() && Enabled(c, s, e) && !s.adderPc.Ready? && Exec(c, s, e).adderPc.Ready?
    ensures s.adderPc.Write? && e.AdderStep? && Exec(c, s, e).added == s.added + [s.adderPc.item]
  {
  }

  /** A call of add returns by putting its own item, and nothing else, in the bag. */
  lemma AddsItem(c: Config, run: seq<State>, events: seq<Event>, i: nat, j: nat)
    requires Run(c, run, events) && AddCall(run, events, i, j) && j < |events| && run[j + 1].adderPc.Ready?
    ensures run[j + 1].added == run[i].added + [events[i].item]
    ensures events[i].item != c.sentinel ==> Enters(c, run[j], run[j + 1], events[i].item)
  {
    AddSoFar(c, run, events, i, j);
    assert StepAt(c, run, events, j);
    OnlyWriteReturns(c, run[j], events[j]);
    RunKeepsInv(c, run, events, j);
    if events[i].item != c.sentinel {
      WriteEnters(c, run[j], events[j].fresh');
    }
  }

  /** How many steps the adder still needs. */
  function StepsLeft(c: Config, s: State): nat {
    match s.adderPc
    case Ready => 0
    case Check(_) => if s.addHead == c.slots then 5 else 3
    case PublishBlock(_) => 4
    case Notify(_) => 2
    case Write(_) => 1
  }

  /** Every call of add ends after at most five steps of the adder. */
  lemma AddEnds(c: Config, s: State, n: Id)
    requires c.Valid() && Inv(c, s) && Enabled(c, s, AdderStep(n))
    ensures StepsLeft(c, AdderMoves(c, s, n)) < StepsLeft(c, s)
  {
    CheckEnds(c, s, n);
  }

  lemma CheckEnds(c: Config, s: State, n: Id)
    requires c.Valid() && AdderInv(c, s) && Enabled(c, s, AdderStep(n))
    ensures StepsLeft(c, AdderMoves(c, s, n)) < StepsLeft(c, s)
  {
  }
}
