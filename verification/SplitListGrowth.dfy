/** The item counter and the growth of the bucket count. */
module SplitListGrowth {
  import Runs
  import opened Options
  import opened PowerOfTwo
  import opened SplitOrder
  import opened SplitListMachine
  import opened SplitListInvariant
  import opened SplitListProof
  import opened SplitListSteps
  import opened SplitListTheorems

  /** The keys of the items, that is, the contents of the map. */
  ghost function Items(s: State): set<Key> {
    set k | k in s.at && !IsDummy(k)
  }

  ghost function Pending(s: State): set<Tid> {
    set t | t in s.threads && Uncounted(s.threads[t])
  }

  ghost predicate CountInv(s: State) {
    |Items(s)| == s.count + |Pending(s)|
  }

  /** What a step may do to the list, the threads that owe a count, and the counter. */
  ghost predicate Counts(s: State, t: Tid, s': State) {
    || (Items(s') == Items(s) && Pending(s') == Pending(s) && s'.count == s.count)
    || (Items(s') == Items(s) && t !in Pending(s') && Pending(s) == Pending(s') + {t} && s'.count == s.count + 1)
    || (t !in Pending(s) && Pending(s') == Pending(s) + {t} && s'.count == s.count
        && exists k :: k !in Items(s) && Items(s') == Items(s) + {k})
  }

  lemma LinkCounts(c: Config, s: State, t: Tid, th: Thread, s': State)
    requires ListInv(c, s) && ThreadInv(c, s, th) && t in s.threads && s.threads[t] == th && Progress(s, t, th, s')
    requires th.pc == CasLink && s'.threads[t].pc != SearchStart
    ensures Counts(s, t, s')
  {
    var k := Target(c, th);
    KeyIsNew(c, s, th.prev.value, k);
    assert s'.at.Keys == s.at.Keys + {k};
    if th.stack == [] {
      KeyFacts(c, 0, th.item);
      assert k !in Items(s) && Items(s') == Items(s) + {k};
    } else {
      KeyFacts(c, Last(th.stack), th.item);
      assert Items(s') == Items(s);
      assert Pending(s') == Pending(s);
    }
  }

  lemma SameItems(s: State, s': State)
    requires s'.at == s.at
    ensures Items(s') == Items(s)
  {
  }

  /** Only the stepping thread can come to owe a count, or settle it. */
  lemma PendingMoves(s: State, t: Tid, s': State)
    requires t in s.threads && t in s'.threads && s'.threads == s.threads[t := s'.threads[t]]
    ensures Uncounted(s'.threads[t]) == Uncounted(s.threads[t]) ==> Pending(s') == Pending(s)
    ensures Uncounted(s.threads[t]) && !Uncounted(s'.threads[t]) ==>
              t !in Pending(s') && Pending(s) == Pending(s') + {t}
  {
  }

  lemma OtherCounts(c: Config, s: State, t: Tid, th: Thread, s': State)
    requires ThreadInv(c, s, th) && t in s.threads && s.threads[t] == th && Progress(s, t, th, s')
    requires !(th.pc == CasLink && s'.threads[t].pc != SearchStart)
    ensures Counts(s, t, s')
  {
    SameItems(s, s');
    PendingMoves(s, t, s');
  }

  lemma CountStep(c: Config, run: seq<State>, events: seq<Event>, j: nat) returns (t: Tid)
    requires Run(c, run, events) && j + 1 < |run|
    ensures Counts(run[j], t, run[j + 1])
  {
    t := StepOfRun(c, run, events, j);
    var th := run[j].threads[t];
    if th.pc == CasLink && run[j + 1].threads[t].pc != SearchStart {
      LinkCounts(c, run[j], t, th, run[j + 1]);
    } else {
      OtherCounts(c, run[j], t, th, run[j + 1]);
    }
  }

  lemma CountsKept(s: State, t: Tid, s': State)
    requires CountInv(s) && Counts(s, t, s')
    ensures CountInv(s')
  {
  }

  lemma InitCounts(c: Config, s: State)
    requires Init(c, s)
    ensures CountInv(s)
  {
    KeyFacts(c, 0, 0);
    assert Items(s) == {};
    assert Pending(s) == {};
  }

  /** The counter lags behind the list by exactly the insertions that have linked their item and not yet
      counted it; between operations it is the number of items. */
  lemma CounterExact(c: Config, run: seq<State>, events: seq<Event>, j: nat)
    requires Run(c, run, events) && j < |run|
    ensures |Items(run[j])| == run[j].count + |Pending(run[j])|
    ensures Quiescent(run[j]) ==> |Items(run[j])| == run[j].count
  {
    InitCounts(c, run[0]);
    forall k | 0 <= k < |run| - 1 && CountInv(run[k]) ensures CountInv(run[k + 1]) {
      var t := CountStep(c, run, events, k);
      CountsKept(run[k], t, run[k + 1]);
    }
    Runs.Invariant(run, s => CountInv(s), j);
    if Quiescent(run[j]) {
      assert Pending(run[j]) == {};
    }
  }

  /** No operation is under way. */
  ghost predicate Quiescent(s: State) {
    forall t | t in s.threads :: s.threads[t].pc == Idle
  }

  /** At most one operation is under way. */
  ghost predicate Alone(s: State) {
    forall t, u | t in s.threads && u in s.threads && s.threads[t].pc != Idle && s.threads[u].pc != Idle :: t == u
  }

  /** At the largest table, or fewer than load + 1 items per bucket. */
  ghost predicate Loaded(c: Config, s: State) {
    s.exp == c.capExp || s.count < (c.load + 1) * Pow2(s.exp)
  }

  /** The bound holds, or is reached by a thread about to double the bucket count. */
  ghost predicate LoadInv(c: Config, s: State) {
    && (forall t | t in s.threads && (s.threads[t].pc == CountItem || s.threads[t].pc == Grow) ::
        s.threads[t].sz == s.exp)
    && (Loaded(c, s) || exists t :: t in s.threads && s.threads[t].pc == Grow)
    && (s.exp == c.capExp || s.count <= (c.load + 1) * Pow2(s.exp))
  }

  lemma BelowLoad(count: nat, exp: nat, load: nat)
    ensures count / Pow2(exp) <= load <==> count < (load + 1) * Pow2(exp)
  {
    DivModBounds(count, Pow2(exp));
    MulMonotone(count / Pow2(exp), load + 1, Pow2(exp));
    MulMonotone(load + 1, count / Pow2(exp), Pow2(exp));
  }

  lemma DoubleBound(load: nat, exp: nat)
    ensures (load + 1) * Pow2(exp) < (load + 1) * Pow2(exp + 1)
  {
    ScaleStep(load + 1, exp + 1);
    MulMonotone(0, load + 1, Pow2(exp));
  }

  /** The test of incItemCount after the counter was increased. */
  ghost predicate DecidesToGrow(c: Config, s: State, th: Thread, th': Thread) {
    && th'.sz == th.sz
    && th'.pc == (if Crowded(c, s.count + 1, th.sz) then Grow else Done)
  }

  /** A count that does not lead to growth leaves the map within the bound. */
  lemma CountedLoaded(c: Config, s: State, s': State, grows: bool)
    requires Loaded(c, s) && s.exp <= c.capExp && s'.count == s.count + 1 && s'.exp == s.exp
    requires grows == Crowded(c, s.count + 1, s.exp)
    ensures grows || Loaded(c, s')
    ensures s'.exp == c.capExp || s'.count <= (c.load + 1) * Pow2(s'.exp)
  {
    BelowLoad(s.count + 1, s.exp, c.load);
    if s.exp < c.capExp {
      Pow2Monotone(s.exp, c.capExp);
    }
  }

  lemma LoadCount(c: Config, s: State, t: Tid, th: Thread, s': State)
    requires Alone(s) && LoadInv(c, s) && s.exp <= c.capExp && t in s.threads && s.threads[t] == th
    requires Progress(s, t, th, s') && th.pc == CountItem && DecidesToGrow(c, s, th, s'.threads[t])
    ensures LoadInv(c, s')
  {
    assert Loaded(c, s);
    CountedLoaded(c, s, s', s'.threads[t].pc == Grow);
  }

  /** Doubling the buckets makes room. */
  lemma GrownLoaded(c: Config, s: State, s': State)
    requires s'.exp == s.exp + 1 && s'.count == s.count && s.count <= (c.load + 1) * Pow2(s.exp)
    ensures Loaded(c, s') && s'.count <= (c.load + 1) * Pow2(s'.exp)
  {
    DoubleBound(c.load, s.exp);
  }

  lemma LoadGrow(c: Config, s: State, t: Tid, th: Thread, s': State)
    requires Alone(s) && LoadInv(c, s) && s.exp < c.capExp && t in s.threads && s.threads[t] == th
    requires Progress(s, t, th, s') && th.pc == Grow
    ensures LoadInv(c, s')
  {
    GrownLoaded(c, s, s');
    forall u | u in s.threads && u != t ensures s.threads[u].pc == Idle {
    }
  }

  /** The one thread at work does not grow the table. */
  lemma NobodyGrows(s: State, t: Tid, th: Thread, s': State)
    requires Alone(s') && t in s.threads && s.threads[t] == th && Progress(s, t, th, s') && th.pc != Grow
    requires th.pc != CountItem
    requires Alone(s)
    ensures forall u | u in s.threads :: s.threads[u].pc != Grow
    ensures forall u | u in s'.threads :: s'.threads[u].pc != Grow
  {
    forall u | u in s.threads ensures s.threads[u].pc != Grow {
      if u != t && th.pc == Idle {
        assert s'.threads[u] == s.threads[u] && s'.threads[t].pc != Idle;
      }
    }
  }

  lemma LoadOther(c: Config, s: State, t: Tid, th: Thread, s': State)
    requires Alone(s) && Alone(s') && LoadInv(c, s) && t in s.threads && s.threads[t] == th
    requires Progress(s, t, th, s') && th.pc != CountItem && th.pc != Grow
    ensures LoadInv(c, s')
  {
    NobodyGrows(s, t, th, s');
    assert Loaded(c, s');
  }

  lemma LoadStep(c: Config, s: State, t: Tid, ch: Choice)
    requires c.Valid() && Inv(c, s) && Enabled(s, t, ch) && LoadInv(c, s)
    requires Alone(s) && Alone(Exec(c, s, t, ch))
    ensures LoadInv(c, Exec(c, s, t, ch))
  {
    var th, s' := s.threads[t], Exec(c, s, t, ch);
    assert ThreadInv(c, s, th);
    if th.pc == CountItem {
      assert s' == DoCountItem(c, s, t, th);
      LoadCount(c, s, t, th, s');
    } else if th.pc == Grow {
      LoadGrow(c, s, t, th, s');
    } else {
      LoadOther(c, s, t, th, s');
    }
  }

  lemma LoadRunStep(c: Config, run: seq<State>, events: seq<Event>, j: nat)
    requires Run(c, run, events) && j + 1 < |run| && Alone(run[j]) && Alone(run[j + 1]) && LoadInv(c, run[j])
    ensures LoadInv(c, run[j + 1])
  {
    RunKeepsInv(c, run, events, j);
    assert StepAt(c, run, events, j);
    var t, ch := events[j].t, events[j].ch;
    LoadStep(c, run[j], t, ch);
  }

  lemma InitLoad(c: Config, s: State)
    requires Init(c, s)
    ensures LoadInv(c, s)
  {
    MulMonotone(1, c.load + 1, Pow2(1));
    assert Loaded(c, s);
  }

  /** As long as operations have not overlapped, the map never held load + 1 items per bucket or more, unless
      the table has reached its capacity. */
  lemma LoadBounded(c: Config, run: seq<State>, events: seq<Event>, j: nat)
    requires Run(c, run, events) && j < |run|
    requires forall k | 0 <= k <= j :: Alone(run[k])
    ensures LoadInv(c, run[j])
    ensures Quiescent(run[j]) ==>
              Pow2(run[j].exp) == c.Capacity() || |Items(run[j])| < (c.load + 1) * Pow2(run[j].exp)
  {
    InitLoad(c, run[0]);
    var past := run[..j + 1];
    forall k | 0 <= k < |past| - 1 && LoadInv(c, past[k]) ensures LoadInv(c, past[k + 1]) {
      LoadRunStep(c, run, events, k);
    }
    Runs.Invariant(past, s => LoadInv(c, s), j);
    CounterExact(c, run, events, j);
  }

  // ---------------------------------------------------------------- what growth and buckets go by

  /** What a thread about to double the bucket count has counted. */
  ghost predicate Counted(c: Config, run: seq<State>, events: seq<Event>, k: nat, t: Tid, sz: nat) {
    && k < |run| && k < |events| && events[k].t == t && t in run[k].threads
    && run[k].threads[t].pc == CountItem && run[k].threads[t].sz == sz
    && (run[k].count + 1) / Pow2(sz) > c.load && Pow2(sz) < c.Capacity()
  }

  lemma CountDecides(c: Config, run: seq<State>, events: seq<Event>, j: nat, t: Tid)
    requires Run(c, run, events) && j + 1 < |run| && events[j].t == t
    requires t in run[j + 1].threads && run[j + 1].threads[t].pc == Grow
    ensures Counted(c, run, events, j, t, run[j + 1].threads[t].sz)
  {
    var u := StepOfRun(c, run, events, j);
    assert StepAt(c, run, events, j);
    assert run[j + 1] == DoCountItem(c, run[j], t, run[j].threads[t]);
  }

  lemma GrowStays(c: Config, run: seq<State>, events: seq<Event>, j: nat, t: Tid)
    requires Run(c, run, events) && j + 1 < |run| && t in run[j + 1].threads && run[j + 1].threads[t].pc == Grow
    ensures if events[j].t == t then Counted(c, run, events, j, t, run[j + 1].threads[t].sz)
            else t in run[j].threads && run[j].threads[t] == run[j + 1].threads[t]
  {
    if events[j].t == t {
      CountDecides(c, run, events, j, t);
    } else {
      var u := StepOfRun(c, run, events, j);
    }
  }

  lemma {:induction false} WillGrow(c: Config, run: seq<State>, events: seq<Event>, j: nat, t: Tid) returns (k: nat)
    requires Run(c, run, events) && j < |run| && t in run[j].threads && run[j].threads[t].pc == Grow
    ensures k < j && Counted(c, run, events, k, t, run[j].threads[t].sz)
  {
    if j == 0 {
      assert false;
    }
    GrowStays(c, run, events, j - 1, t);
    if events[j - 1].t == t {
      k := j - 1;
    } else {
      k := WillGrow(c, run, events, j - 1, t);
    }
  }

  /** The bucket count is doubled only by a thread that has counted an item and found more items than the load factor
      allows for that very bucket count, which is below the capacity. */
  lemma GrowsWhenCrowded(c: Config, run: seq<State>, events: seq<Event>, j: nat) returns (k: nat)
    requires Run(c, run, events) && j + 1 < |run| && run[j + 1].exp != run[j].exp
    ensures run[j + 1].exp == run[j].exp + 1
    ensures k < j && Counted(c, run, events, k, events[j].t, run[j].exp)
  {
    var t := StepOfRun(c, run, events, j);
    k := WillGrow(c, run, events, j, t);
  }

  lemma LevelStep(c: Config, run: seq<State>, events: seq<Event>, j: nat, t: Tid)
    requires Run(c, run, events) && j + 1 < |run| && t in run[j].threads && t in run[j + 1].threads
    requires run[j].threads[t].pc != Idle
    ensures var th, th' := run[j].threads[t], run[j + 1].threads[t];
            if events[j].t == t && th.pc == ReadExp then th'.level == run[j].exp
            else th'.level == th.level && (th.pc == ReadExp ==> th'.pc == ReadExp)
  {
    var u := StepOfRun(c, run, events, j);
  }

  lemma CallBegins(c: Config, run: seq<State>, events: seq<Event>, i: nat, t: Tid)
    requires Run(c, run, events) && Call(run, events, i, i + 1, t)
    ensures run[i + 1].threads[t].pc == ReadExp
  {
    var u := StepOfRun(c, run, events, i);
  }

  lemma {:induction false} LevelFrom(c: Config, run: seq<State>, events: seq<Event>, i: nat, j: nat, t: Tid)
    returns (k: nat)
    requires Run(c, run, events) && Call(run, events, i, j, t) && run[j].threads[t].pc != ReadExp
    ensures i < k < j && events[k].t == t && run[k].threads[t].pc == ReadExp
    ensures run[j].threads[t].level == run[k].exp
  {
    if i + 1 == j {
      CallBegins(c, run, events, i, t);
    } else {
      LevelStep(c, run, events, j - 1, t);
      if run[j - 1].threads[t].pc == ReadExp {
        k := j - 1;
      } else {
        k := LevelFrom(c, run, events, i, j - 1, t);
      }
    }
  }

  lemma HomeOfLevel(c: Config, run: seq<State>, events: seq<Event>, i: nat, j: nat, t: Tid)
    requires Run(c, run, events) && Call(run, events, i, j, t) && run[j].threads[t].pc != ReadExp
    ensures var th := run[j].threads[t]; th.home == BucketNo(c.hash(events[i].ch.item), th.level)
  {
    RunKeepsInv(c, run, events, j);
    assert ThreadInv(c, run[j], run[j].threads[t]);
    CallSteps(c, run, events, i, j, t);
    CallRecorded(run, events, i, j, t);
  }

  /** A call works with the bucket of its item for the bucket count that it read at its beginning. */
  lemma LevelRead(c: Config, run: seq<State>, events: seq<Event>, i: nat, j: nat, t: Tid) returns (k: nat)
    requires Run(c, run, events) && Call(run, events, i, j, t) && run[j].threads[t].pc != ReadExp
    ensures i < k < j && events[k].t == t && run[k].threads[t].pc == ReadExp
    ensures run[j].threads[t].level == run[k].exp
    ensures run[j].threads[t].home == BucketNo(c.hash(events[i].ch.item), run[k].exp)
  {
    k := LevelFrom(c, run, events, i, j, t);
    HomeOfLevel(c, run, events, i, j, t);
  }
}
