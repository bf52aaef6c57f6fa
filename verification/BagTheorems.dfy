/** What holds in every interleaving of one adder and one remover. */
module BagTheorems {
  import opened Options
  import opened BagMachine
  import opened BagChain
  import opened BagInvariant
  import opened BagEmptiness

  ghost predicate Run(c: Config, run: seq<State>, events: seq<Event>) {
    && c.Valid()
    && |run| == |events| + 1 && Init(c, run[0])
    && forall i | 0 <= i < |events| :: StepAt(c, run, events, i)
  }

  ghost predicate StepAt(c: Config, run: seq<State>, events: seq<Event>, i: int)
    requires c.Valid() && 0 <= i < |events| && |run| == |events| + 1
  {
    Enabled(c, run[i], events[i]) && run[i + 1] == Exec(c, run[i], events[i])
  }

  /** The sentinel is never returned. */
  ghost predicate Genuine(c: Config, s: State) {
    c.sentinel !in s.returned
  }

  lemma StepGenuine(c: Config, s: State, e: Event)
    requires c.Valid() && Inv(c, s) && Genuine(c, s) && Enabled(c, s, e)
    ensures Genuine(c, Exec(c, s, e))
  {
    if e.RemoverStep? && s.pc.Take? {
      assert DoTake(c, s).returned == s.returned + [s.pc.x];
    }
  }

  ghost predicate Good(c: Config, s: State) {
    Inv(c, s) && RoundInv(c, s) && Genuine(c, s)
  }

  lemma StepGood(c: Config, s: State, e: Event)
    requires c.Valid() && Good(c, s) && Enabled(c, s, e)
    ensures Good(c, Exec(c, s, e))
  {
    StepKeepsInv(c, s, e);
    StepKeepsRound(c, s, e);
    StepGenuine(c, s, e);
  }

  lemma InitGood(c: Config, s: State)
    requires c.Valid() && Init(c, s)
    ensures Good(c, s)
  {
    InitInv(c, s);
  }

  lemma {:induction false} RunKeepsInv(c: Config, run: seq<State>, events: seq<Event>, j: nat)
    requires Run(c, run, events) && j < |run|
    ensures Good(c, run[j])
  {
    if j == 0 {
      InitGood(c, run[0]);
    } else {
      RunKeepsInv(c, run, events, j - 1);
      assert StepAt(c, run, events, j - 1);
      StepGood(c, run[j - 1], events[j - 1]);
    }
  }

  /** Nothing is lost and nothing is returned twice: at every instant each value other than the sentinel was
      added as often as it was returned or is in a slot of the list linked from the adder's head. */
  lemma Conservation(c: Config, run: seq<State>, events: seq<Event>, j: nat, v: Value)
    requires Run(c, run, events) && j < |run| && v != c.sentinel
    ensures ListInv(c, run[j])
    ensures multiset(run[j].added)[v] == multiset(run[j].returned)[v] + Count(run[j].blocks, run[j].chain, v)
  {
    RunKeepsInv(c, run, events, j);
  }

  /** Items must differ from the sentinel: one that does not is added to no place, and is never returned. */
  lemma SentinelIsLost(c: Config, run: seq<State>, events: seq<Event>, j: nat)
    requires Run(c, run, events) && j < |events|
    ensures c.sentinel !in run[j].returned
    ensures run[j].adderPc == Write(c.sentinel) && events[j].AdderStep? ==> Places(c, run[j + 1]) == Places(c, run[j])
  {
    RunKeepsInv(c, run, events, j);
    var s := run[j];
    assert StepAt(c, run, events, j);
    if s.adderPc == Write(c.sentinel) && events[j].AdderStep? {
      var b := s.addBlock.value;
      assert s.blocks[b].data[s.addHead := c.sentinel] == s.blocks[b].data;
      assert run[j + 1].blocks == s.blocks;
    }
  }

  /** Every block that the remover unlinks is empty, and stays so: the adder does not have it. The links it
      acts on are as it read them, so none of the branches for several removers is taken. */
  lemma UnlinksEmptyBlocks(c: Config, run: seq<State>, events: seq<Event>, j: nat)
    requires Run(c, run, events) && j < |run|
    ensures !run[j].pc.Contended?
    ensures run[j].pc.Unlink? ==>
              && run[j].stealBlock.Some? && run[j].stealBlock.value in run[j].blocks
              && IsEmpty(c, run[j].blocks[run[j].stealBlock.value])
              && run[j].addBlock != run[j].stealBlock
  {
    RunKeepsInv(c, run, events, j);
    if run[j].pc.Unlink? {
      UnlinkedIsEmpty(c, run[j]);
      UnlinkSucceeds(c, run[j]);
    }
  }

  // ---------------------------------------------------------------- false means empty

  /** The remover has been inside one call from i to j. */
  ghost predicate WithinCall(run: seq<State>, i: nat, j: nat) {
    i <= j < |run| && forall l | i <= l <= j :: !run[l].pc.Away?
  }

  lemma DueStep(c: Config, s: State, e: Event)
    requires c.Valid() && Enabled(c, s, e)
    requires var s' := Exec(c, s, e); !s'.pc.Away? && s'.round >= 1
    ensures var s' := Exec(c, s, e);
            || (!s.pc.Away? && s.round >= 1 && s'.due == s.due)
            || (s.pc.Again? && s'.due == Places(c, s))
  {
    if e.RemoverStep? && s.pc.Again? {
      assert Exec(c, s, e) == DoAgain(c, s);
    }
  }

  /** The items that the remover must meet in its round were those in the bag at an instant of the call. */
  lemma {:induction false} DueRecorded(c: Config, run: seq<State>, events: seq<Event>, j: nat) returns (i: nat)
    requires Run(c, run, events) && j < |run| && !run[j].pc.Away? && run[j].round >= 1
    ensures WithinCall(run, i, j)
    ensures run[j].due == Places(c, run[i])
  {
    assert j > 0;
    assert StepAt(c, run, events, j - 1);
    DueStep(c, run[j - 1], events[j - 1]);
    if run[j - 1].pc.Again? && run[j].due == Places(c, run[j - 1]) {
      i := j - 1;
    } else {
      i := DueRecorded(c, run, events, j - 1);
    }
  }

  lemma NoItems(c: Config, s: State)
    requires Places(c, s) == {}
    ensures forall b | b in s.chain && b in s.blocks :: IsEmpty(c, s.blocks[b])
  {
    forall b, k | b in s.chain && b in s.blocks && 0 <= k < |s.blocks[b].data|
      ensures s.blocks[b].data[k] == c.sentinel
    {
      assert (b, k) !in Places(c, s);
    }
  }

  /** When tryRemoveAny returns false, it has made all its rounds, and there was an instant within the call at which
      the bag was empty. */
  lemma FalseMeansEmpty(c: Config, run: seq<State>, events: seq<Event>, j: nat) returns (i: nat)
    requires Run(c, run, events) && j < |run| && run[j].pc == Return(None)
    ensures WithinCall(run, i, j)
    ensures Inv(c, run[i])
    ensures forall b | b in run[i].chain && b in run[i].blocks :: IsEmpty(c, run[i].blocks[b])
    ensures run[j].round == c.threads
  {
    RunKeepsInv(c, run, events, j);
    i := DueRecorded(c, run, events, j);
    RunKeepsInv(c, run, events, i);
    NoItems(c, run[i]);
  }
}
