/** Why the list is lock-free: an attempt fails only because another thread's insertion succeeded. */
module SplitListProgress {
  import opened Options
  import opened SplitListMachine
  import opened SplitListInvariant
  import opened SplitListProof
  import opened SplitListSteps
  import opened SplitListTheorems
  import Runs

  /** prev leads to cur. */
  ghost predicate Points(s: State, th: Thread) {
    match th.prev
    case None => th.cur == Some(th.head)
    case Some(p) => p in s.heap && s.heap[p].next == th.cur
  }

  /** cur leads to next. */
  ghost predicate Leads(s: State, th: Thread) {
    th.cur.Some? && th.cur.value in s.heap && s.heap[th.cur.value].next == th.next
  }

  /** Where the attempt stands, the pointers are as the thread last read them. */
  ghost predicate Unchanged(s: State, th: Thread) {
    match th.pc
    case ReloadNext => Points(s, th) && Leads(s, th)
    case CheckPrev => Points(s, th) && Leads(s, th)
    case _ => Points(s, th)
  }

  /** While nothing was linked since the attempt began, nothing that it read has changed. */
  ghost predicate AttemptInv(s: State, th: Thread) {
    Attempting(th.pc) ==>
      && th.before.Keys <= s.at.Keys
      && (s.at.Keys == th.before.Keys ==> Unchanged(s, th))
  }

  // ---------------------------------------------------------------- steps of other threads

  /** A step that links nothing changes no linked node. */
  ghost predicate SameList(s: State, s': State) {
    s'.at == s.at && forall n | Linked(s, n) :: n in s'.heap && s'.heap[n] == s.heap[n]
  }

  /** A step either leaves the list alone, or links a key that was not there. */
  ghost predicate ListStep(s: State, s': State) {
    SameList(s, s') || (s.at.Keys < s'.at.Keys)
  }

  lemma OtherAttempt(c: Config, s: State, s': State, th: Thread)
    requires ThreadInv(c, s, th) && AttemptInv(s, th) && ListStep(s, s')
    ensures AttemptInv(s', th)
  {
  }

  lemma CasStepsList(c: Config, s: State, t: Tid, th: Thread)
    requires ListInv(c, s) && ThreadInv(c, s, th) && th.pc == CasLink
    ensures ListStep(s, DoCasLink(s, t, th))
  {
    if s.heap[th.prev.value].next == th.cur {
      KeyIsNew(c, s, th.prev.value, Target(c, th));
      assert DoCasLink(s, t, th).at.Keys == s.at.Keys + {Target(c, th)};
    }
  }

  lemma AllocStepsList(c: Config, s: State, t: Tid, th: Thread, n: Id)
    requires n !in s.heap
    ensures SameList(s, DoAlloc(c, s, t, th, n))
  {
  }

  lemma FoundStepsList(c: Config, s: State, t: Tid, th: Thread)
    requires NodeOk(c, s, th)
    ensures SameList(s, Found(s, t, th))
  {
  }

  predicate CanCheck(s: State, th: Thread) {
    th.cur.Some? && th.cur.value in s.heap && (th.prev.Some? ==> th.prev.value in s.heap)
  }

  /** A thread that goes on does so from a place where prev leads to cur, or from the next one. */
  ghost predicate MovesOn(th: Thread, th': Thread) {
    && th'.pc != SearchStart && th'.before == th.before && th'.head == th.head
    && (Attempting(th'.pc) ==>
          && (th'.pc == LoadNext || th'.pc == StoreNext)
          && ((th'.prev == th.prev && th'.cur == th.cur) || (th'.prev == th.cur && th'.cur == th.next)))
  }

  ghost predicate GoesOn(s: State, th: Thread, s': State, th': Thread) {
    s'.heap == s.heap && s'.at == s.at && MovesOn(th, th')
  }

  lemma PassedShape(s: State, th: Thread, cmp: int)
    ensures MovesOn(th, Passed(s, th, cmp))
  {
  }

  /** What a comparison comes to: found, or going on. */
  lemma ComparedShape(c: Config, s: State, t: Tid, th: Thread)
    requires th.cur.Some? && th.cur.value in s.heap && th.pc == CheckPrev
    ensures var s' := Compared(c, s, t, th);
            t in s'.threads && (s' == Found(s, t, th) || GoesOn(s, th, s', s'.threads[t]))
  {
    PassedShape(s, th, Compare(s.heap[th.cur.value].key, Target(c, th)));
  }

  lemma FoundShape(s: State, t: Tid, th: Thread)
    ensures t in Found(s, t, th).threads && !Attempting(Found(s, t, th).threads[t].pc)
    ensures Found(s, t, th).threads[t].pc != SearchStart
  {
  }

  lemma CheckShape(c: Config, s: State, t: Tid, th: Thread)
    requires CanCheck(s, th) && th.pc == CheckPrev
    ensures var s' := DoCheckPrev(c, s, t, th); var th' := s'.threads[t];
            || (th'.pc == SearchStart && s'.heap == s.heap && s'.at == s.at && !Points(s, th))
            || (s' == Found(s, t, th) && th'.pc != SearchStart && !Attempting(th'.pc))
            || GoesOn(s, th, s', th')
  {
    ComparedShape(c, s, t, th);
    FoundShape(s, t, th);
  }

  lemma CheckStepsList(c: Config, s: State, t: Tid, th: Thread)
    requires ThreadInv(c, s, th) && th.pc == CheckPrev && CanCheck(s, th)
    ensures SameList(s, DoCheckPrev(c, s, t, th))
  {
    CheckShape(c, s, t, th);
    FoundStepsList(c, s, t, th);
  }

  lemma StoreStepsList(c: Config, s: State, t: Tid, th: Thread)
    requires NodeOk(c, s, th) && th.node.Some?
    ensures SameList(s, DoStoreNext(s, t, th))
  {
  }

  lemma QuietStepsList(c: Config, s: State, t: Tid, th: Thread, ch: Choice)
    requires t in s.threads && s.threads[t] == th && Enabled(s, t, ch)
    requires th.pc != Alloc && th.pc != CheckPrev && th.pc != StoreNext && th.pc != CasLink
    ensures SameList(s, Exec(c, s, t, ch))
  {
    assert Exec(c, s, t, ch).heap == s.heap;
  }

  lemma StepsList(c: Config, s: State, t: Tid, ch: Choice)
    requires ListInv(c, s) && Enabled(s, t, ch) && ThreadInv(c, s, s.threads[t])
    ensures ListStep(s, Exec(c, s, t, ch))
  {
    match s.threads[t].pc
    case CasLink => CasStepsList(c, s, t, s.threads[t]);
    case Alloc => AllocStepsList(c, s, t, s.threads[t], ch.address);
    case CheckPrev => CheckStepsList(c, s, t, s.threads[t]);
    case StoreNext => StoreStepsList(c, s, t, s.threads[t]);
    case _ => QuietStepsList(c, s, t, s.threads[t], ch);
  }

  // ---------------------------------------------------------------- the attempt's own steps

  lemma OwnBegin(s: State, t: Tid, th: Thread)
    requires th.pc == SearchStart
    ensures AttemptInv(DoSearchStart(s, t, th), DoSearchStart(s, t, th).threads[t])
  {
  }

  lemma OwnLoad(s: State, t: Tid, th: Thread)
    requires AttemptInv(s, th) && th.pc == LoadNext && th.cur.Some? && th.cur.value in s.heap
    ensures AttemptInv(DoLoadNext(s, t, th), DoLoadNext(s, t, th).threads[t])
  {
  }

  lemma Reread(s: State, s': State, th: Thread, th': Thread)
    requires AttemptInv(s, th) && th.pc == ReloadNext && Leads(s, th) && s'.at == s.at && s'.heap == s.heap
    requires th'.pc == CheckPrev && th'.prev == th.prev && th'.cur == th.cur && th'.next == th.next
    requires th'.head == th.head && th'.before == th.before
    ensures AttemptInv(s', th')
  {
  }

  lemma OwnReload(s: State, t: Tid, th: Thread)
    requires AttemptInv(s, th) && th.pc == ReloadNext && th.cur.Some? && th.cur.value in s.heap
    ensures AttemptInv(DoReloadNext(s, t, th), DoReloadNext(s, t, th).threads[t])
  {
    if s.heap[th.cur.value].next == th.next {
      Reread(s, DoReloadNext(s, t, th), th, th.(pc := CheckPrev, lin := s.Now()));
    }
  }

  /** The search goes on, or ends at a place: prev still leads to cur. */
  lemma OwnMove(s: State, s': State, th: Thread, th': Thread)
    requires AttemptInv(s, th) && th.pc == CheckPrev && s'.at == s.at && s'.heap == s.heap
    requires th'.before == th.before && th'.head == th.head && (th'.pc == LoadNext || th'.pc == StoreNext)
    requires (th'.prev == th.prev && th'.cur == th.cur) || (th'.prev == th.cur && th'.cur == th.next)
    ensures AttemptInv(s', th')
  {
  }

  lemma OwnCheck(c: Config, s: State, t: Tid, th: Thread)
    requires AttemptInv(s, th) && th.pc == CheckPrev && CanCheck(s, th)
    ensures AttemptInv(DoCheckPrev(c, s, t, th), DoCheckPrev(c, s, t, th).threads[t])
  {
    CheckShape(c, s, t, th);
    var s' := DoCheckPrev(c, s, t, th);
    if Attempting(s'.threads[t].pc) {
      OwnMove(s, s', th, s'.threads[t]);
    }
  }

  lemma OwnStore(c: Config, s: State, t: Tid, th: Thread)
    requires ThreadInv(c, s, th) && AttemptInv(s, th) && th.pc == StoreNext
    ensures AttemptInv(DoStoreNext(s, t, th), DoStoreNext(s, t, th).threads[t])
  {
  }

  lemma OwnCas(s: State, t: Tid, th: Thread)
    requires th.pc == CasLink && th.node.Some? && th.node.value in s.heap && th.prev.Some? && th.prev.value in s.heap
    ensures !Attempting(DoCasLink(s, t, th).threads[t].pc)
  {
  }

  lemma OwnAttempt(c: Config, s: State, t: Tid, ch: Choice)
    requires Enabled(s, t, ch) && ThreadInv(c, s, s.threads[t]) && AttemptInv(s, s.threads[t])
    ensures AttemptInv(Exec(c, s, t, ch), Exec(c, s, t, ch).threads[t])
  {
    var th := s.threads[t];
    match th.pc
    case SearchStart => OwnBegin(s, t, th);
    case LoadNext => OwnLoad(s, t, th);
    case ReloadNext => OwnReload(s, t, th);
    case CheckPrev => OwnCheck(c, s, t, th);
    case StoreNext => OwnStore(c, s, t, th);
    case CasLink => OwnCas(s, t, th);
    case _ => assert Progress(s, t, th, Exec(c, s, t, ch));
  }

  ghost predicate AllAttempts(s: State) {
    forall t | t in s.threads :: AttemptInv(s, s.threads[t])
  }

  lemma AttemptsKept(c: Config, s: State, s': State, t: Tid)
    requires Inv(c, s) && AllAttempts(s) && ListStep(s, s')
    requires t in s'.threads && s'.threads == s.threads[t := s'.threads[t]] && AttemptInv(s', s'.threads[t])
    ensures AllAttempts(s')
  {
    forall u | u in s'.threads && u != t ensures AttemptInv(s', s'.threads[u]) {
      assert ThreadInv(c, s, s.threads[u]);
      OtherAttempt(c, s, s', s.threads[u]);
    }
  }

  lemma StepKeepsAttempts(c: Config, s: State, t: Tid, ch: Choice)
    requires Inv(c, s) && Enabled(s, t, ch) && AllAttempts(s)
    ensures AllAttempts(Exec(c, s, t, ch))
  {
    var s' := Exec(c, s, t, ch);
    OwnAttempt(c, s, t, ch);
    StepsList(c, s, t, ch);
    AttemptsKept(c, s, s', t);
  }

  // ---------------------------------------------------------------- runs

  lemma InitAttempts(c: Config, s: State)
    requires Init(c, s)
    ensures AllAttempts(s)
  {
  }

  lemma RunKeepsAttempts(c: Config, run: seq<State>, events: seq<Event>, j: nat)
    requires Run(c, run, events) && j < |run|
    ensures AllAttempts(run[j])
  {
    InitAttempts(c, run[0]);
    forall k | 0 <= k < |run| - 1 && AllAttempts(run[k]) ensures AllAttempts(run[k + 1]) {
      RunKeepsInv(c, run, events, k);
      assert StepAt(c, run, events, k);
      var t, ch := events[k].t, events[k].ch;
      StepKeepsAttempts(c, run[k], t, ch);
    }
    Runs.Invariant(run, s => AllAttempts(s), j);
  }

  /** A thread that starts its search again has read something that is no longer so. */
  lemma RestartFoundChange(c: Config, s: State, t: Tid, ch: Choice)
    requires Enabled(s, t, ch) && ThreadInv(c, s, s.threads[t])
    requires Attempting(s.threads[t].pc) && Exec(c, s, t, ch).threads[t].pc == SearchStart
    ensures !Unchanged(s, s.threads[t])
  {
    var th := s.threads[t];
    match th.pc
    case ReloadNext => ReloadRestarts(s, t, th);
    case CheckPrev => CheckShape(c, s, t, th);
    case CasLink => CasRestarts(s, t, th);
    case _ =>
  }

  lemma ReloadRestarts(s: State, t: Tid, th: Thread)
    requires th.cur.Some? && th.cur.value in s.heap && DoReloadNext(s, t, th).threads[t].pc == SearchStart
    ensures !Leads(s, th)
  {
  }

  lemma CasRestarts(s: State, t: Tid, th: Thread)
    requires th.node.Some? && th.node.value in s.heap && th.prev.Some? && th.prev.value in s.heap
    requires DoCasLink(s, t, th).threads[t].pc == SearchStart
    ensures !Points(s, th)
  {
  }

  /** From l on thread t is in one and the same attempt, which ends at j. */
  ghost predicate SameAttempt(run: seq<State>, l: nat, j: nat, t: Tid) {
    l <= j < |run| && t in run[j].threads && forall k | l <= k <= j ::
      t in run[k].threads && Attempting(run[k].threads[t].pc) && run[k].threads[t].before == run[j].threads[t].before
  }

  /** Another thread linked a node between instants k and k + 1. */
  ghost predicate OtherLinked(run: seq<State>, k: nat, t: Tid) {
    && k + 1 < |run| && t in run[k].threads && t in run[k + 1].threads
    && run[k].at.Keys < run[k + 1].at.Keys && run[k + 1].threads[t] == run[k].threads[t]
  }

  /** An attempt goes on with the same view of the list, or begins with the present one. */
  ghost predicate AttemptMove(s: State, s': State, t: Tid) {
    && t in s.threads && t in s'.threads && ListStep(s, s')
    && (s'.at.Keys != s.at.Keys ==> s'.threads[t] == s.threads[t])
    && var th, th' := s.threads[t], s'.threads[t];
       || (Attempting(th.pc) && th'.before == th.before)
       || (th.pc == SearchStart && th'.before == s.at && s'.at == s.at)
  }

  ghost predicate AttemptStepOk(run: seq<State>, j: nat, t: Tid)
    requires j + 1 < |run|
  {
    AttemptMove(run[j], run[j + 1], t)
  }

  lemma AttemptMoves(s: State, u: Tid, th: Thread, s': State, t: Tid)
    requires u in s.threads && s.threads[u] == th && Progress(s, u, th, s') && ListStep(s, s')
    requires t in s'.threads && Attempting(s'.threads[t].pc)
    ensures AttemptMove(s, s', t)
  {
  }

  lemma StepAttempts(c: Config, s: State, u: Tid, ch: Choice, t: Tid)
    requires ListInv(c, s) && Enabled(s, u, ch) && ThreadInv(c, s, s.threads[u])
    requires var s' := Exec(c, s, u, ch); t in s'.threads && Attempting(s'.threads[t].pc)
    ensures AttemptMove(s, Exec(c, s, u, ch), t)
  {
    StepsList(c, s, u, ch);
    AttemptMoves(s, u, s.threads[u], Exec(c, s, u, ch), t);
  }

  lemma StepOfAttempt(c: Config, run: seq<State>, events: seq<Event>, j: nat, t: Tid)
    requires Run(c, run, events) && j + 1 < |run| && t in run[j + 1].threads && Attempting(run[j + 1].threads[t].pc)
    ensures AttemptStepOk(run, j, t)
  {
    RunKeepsInv(c, run, events, j);
    assert StepAt(c, run, events, j);
    var u, ch := events[j].t, events[j].ch;
    StepAttempts(c, run[j], u, ch, t);
  }

  /** If the list is no longer what it was when the attempt began, another thread linked a node since. */
  lemma {:induction false} ChangeWithin(run: seq<State>, j: nat, t: Tid) returns (k: nat)
    requires j < |run| && t in run[j].threads && Attempting(run[j].threads[t].pc)
    requires t in run[0].threads && !Attempting(run[0].threads[t].pc)
    requires forall l: nat {:trigger AttemptStepOk(run, l, t)} | l < j && t in run[l + 1].threads
               && Attempting(run[l + 1].threads[t].pc) :: AttemptStepOk(run, l, t)
    requires run[j].threads[t].before.Keys != run[j].at.Keys
    ensures k < j && SameAttempt(run, k, j, t) && OtherLinked(run, k, t)
  {
    assert j > 0;
    assert t in run[j - 1 + 1].threads && Attempting(run[j - 1 + 1].threads[t].pc);
    assert AttemptStepOk(run, j - 1, t);
    if Attempting(run[j - 1].threads[t].pc) && run[j - 1].threads[t].before.Keys != run[j - 1].at.Keys {
      k := ChangeWithin(run, j - 1, t);
    } else {
      k := j - 1;
    }
  }

  lemma StepRestarts(c: Config, s: State, t: Tid, ch: Choice)
    requires Enabled(s, t, ch) && ThreadInv(c, s, s.threads[t]) && AttemptInv(s, s.threads[t])
    requires Attempting(s.threads[t].pc) && Exec(c, s, t, ch).threads[t].pc == SearchStart
    ensures s.threads[t].before.Keys != s.at.Keys
  {
    RestartFoundChange(c, s, t, ch);
  }

  lemma OnlyStepper(s: State, u: Tid, s': State, t: Tid)
    requires u in s.threads && Progress(s, u, s.threads[u], s')
    requires t in s.threads && t in s'.threads && s'.threads[t] != s.threads[t]
    ensures u == t
  {
  }

  lemma RestartChanged(c: Config, run: seq<State>, events: seq<Event>, j: nat, t: Tid)
    requires Run(c, run, events) && j + 1 < |run| && t in run[j].threads && t in run[j + 1].threads
    requires Attempting(run[j].threads[t].pc) && run[j + 1].threads[t].pc == SearchStart
    ensures run[j].threads[t].before.Keys != run[j].at.Keys
  {
    RunKeepsInv(c, run, events, j);
    RunKeepsAttempts(c, run, events, j);
    assert StepAt(c, run, events, j);
    var u, ch := events[j].t, events[j].ch;
    OnlyStepper(run[j], u, run[j + 1], t);
    StepRestarts(c, run[j], t, ch);
  }

  /** No threads come or go. */
  lemma SameThreads(c: Config, run: seq<State>, events: seq<Event>, j: nat)
    requires Run(c, run, events) && j + 1 < |run|
    ensures run[j + 1].threads.Keys == run[j].threads.Keys
  {
    var u := StepOfRun(c, run, events, j);
    assert run[j + 1].threads.Keys == run[j].threads.Keys + {u};
  }

  lemma RunStart(c: Config, run: seq<State>, events: seq<Event>, j: nat, t: Tid)
    requires Run(c, run, events) && j < |run| && t in run[j].threads
    ensures t in run[0].threads && run[0].threads[t].pc == Idle
  {
    forall k | 0 <= k < |run| - 1 ensures run[k].threads.Keys == run[k + 1].threads.Keys {
      SameThreads(c, run, events, k);
    }
    Runs.Preorder(run, (a: State, b: State) => a.threads.Keys == b.threads.Keys, 0, j);
  }

  /** Lock-freedom: when a thread must start its search again, then since it last started another thread
      has linked a node; so of all the threads that are trying, one succeeds. */
  lemma RestartBlamesInsertion(c: Config, run: seq<State>, events: seq<Event>, j: nat, t: Tid) returns (k: nat)
    requires Run(c, run, events) && j + 1 < |run| && t in run[j].threads && t in run[j + 1].threads
    requires Attempting(run[j].threads[t].pc) && run[j + 1].threads[t].pc == SearchStart
    ensures k < j && SameAttempt(run, k, j, t) && OtherLinked(run, k, t)
  {
    RestartChanged(c, run, events, j, t);
    RunStart(c, run, events, j, t);
    forall l: nat | l < j && t in run[l + 1].threads && Attempting(run[l + 1].threads[t].pc)
      ensures AttemptStepOk(run, l, t)
    {
      StepOfAttempt(c, run, events, l, t);
    }
    k := ChangeWithin(run, j, t);
  }
}
