/** The reentrant spinlock, one shared access at a time, for any number of threads. */
module ReentrantLock {
  import opened PowerOfTwo

  type Tid = nat

  /** OS::nullThreadId */
  const NOBODY: Tid := 0

  datatype Pc =
    | Away
    | LockOwned        // lock: isOwned
    | TryOwned(n: nat) // tryLock( n ): isOwned
    | Enter            // ++m_spin
    | Acquire          // CAS( m_spin, 0, 1 ), until it succeeds
    | Wait             // load m_spin until it is 0
    | TryAcquire(n: nat) // CAS( m_spin, 0, 1 ), at most n times
    | BeOwner          // m_OwnerId = tid
    | UnlockOwned      // unlock: isOwned
    | LoadSpin         // m_spin > 1 ?
    | Leave            // --m_spin
    | Free             // m_OwnerId = null
    | Release          // m_spin = 0
    | Return(ok: bool)

  /** depth: how often the thread holds the lock; it changes with m_spin. */
  datatype Thread = Thread(pc: Pc, depth: nat)

  /** The lock word and the owner field. */
  datatype State = State(spin: nat, owner: Tid, threads: map<Tid, Thread>)
  {
    function Then(t: Tid, th: Thread): State {
      this.(threads := threads[t := th])
    }
  }

  datatype Event = Lock(t: Tid) | TryLock(t: Tid, n: nat) | Unlock(t: Tid) | Step(t: Tid)

  predicate Enabled(s: State, e: Event) {
    && e.t in s.threads && e.t != NOBODY
    && (e.Step? <==> !s.threads[e.t].pc.Away?)
  }

  /** One level more in a counter of the given number of values: 2^32 for the 32-bit lock. */
  function Inc(modulus: nat, spin: nat): nat
    requires modulus > 0
  {
    DivModBounds(spin + 1, modulus);
    (spin + 1) % modulus
  }

  function Moves(modulus: nat, s: State, t: Tid): State
    requires modulus > 0 && t in s.threads
  {
    var th := s.threads[t];
    match th.pc
    case Away => s
    case LockOwned => s.Then(t, th.(pc := if s.owner == t then Enter else Acquire))
    case TryOwned(n) => s.Then(t, th.(pc := if s.owner == t then Enter else TryAcquire(n)))
    case Enter => s.(spin := Inc(modulus, s.spin)).Then(t, Thread(Return(true), th.depth + 1))
    case Acquire =>
      if s.spin == 0 then s.(spin := 1).Then(t, Thread(BeOwner, 1)) else s.Then(t, th.(pc := Wait))
    case Wait => s.Then(t, th.(pc := if s.spin == 0 then Acquire else Wait))
    case TryAcquire(n) =>
      if n == 0 then s.Then(t, th.(pc := Return(false)))
      else if s.spin == 0 then s.(spin := 1).Then(t, Thread(BeOwner, 1))
      else s.Then(t, th.(pc := TryAcquire(n - 1)))
    case BeOwner => s.(owner := t).Then(t, th.(pc := Return(true)))
    case UnlockOwned => s.Then(t, th.(pc := if s.owner == t then LoadSpin else Return(false)))
    case LoadSpin => s.Then(t, th.(pc := if s.spin > 1 then Leave else Free))
    case Leave =>
      s.(spin := if s.spin > 0 then s.spin - 1 else modulus - 1)
       .Then(t, Thread(Return(true), if th.depth > 0 then th.depth - 1 else 0))
    case Free => s.(owner := NOBODY).Then(t, th.(pc := Release))
    case Release => s.(spin := 0).Then(t, Thread(Return(true), 0))
    case Return(_) => s.Then(t, th.(pc := Away))
  }

  function Exec(modulus: nat, s: State, e: Event): State
    requires modulus > 0 && Enabled(s, e)
  {
    match e
    case Lock(t) => s.Then(t, s.threads[t].(pc := LockOwned))
    case TryLock(t, n) => s.Then(t, s.threads[t].(pc := TryOwned(n)))
    case Unlock(t) => s.Then(t, s.threads[t].(pc := UnlockOwned))
    case Step(t) => Moves(modulus, s, t)
  }

  predicate Init(s: State) {
    && s.spin == 0 && s.owner == NOBODY
    && forall t | t in s.threads :: s.threads[t] == Thread(Away, 0)
  }

  // ---------------------------------------------------------------- the invariant

  ghost predicate Holds(s: State, t: Tid) {
    t in s.threads && s.threads[t].depth > 0
  }

  /** The counter is the holder's depth; the owner field names the holder, but for the instants between
      taking the lock and signing it, and between crossing the name out and releasing the lock. */
  ghost predicate ThreadInv(modulus: nat, s: State, t: Tid)
    requires t in s.threads
  {
    var th := s.threads[t];
    && (th.depth > 0 ==> s.spin == th.depth < modulus && t != NOBODY
                         && s.owner == (if th.pc.BeOwner? || th.pc.Release? then NOBODY else t))
    && (s.owner == t && t != NOBODY ==> th.depth > 0)
    && (th.pc.BeOwner? || th.pc.Release? || th.pc.Free? ==> th.depth == 1)
    && (th.pc.Enter? || th.pc.LoadSpin? ==> th.depth > 0)
    && (th.pc.Leave? ==> th.depth > 1)
    && (th.pc.Acquire? || th.pc.Wait? || th.pc.TryAcquire? ==> th.depth == 0)
  }

  ghost predicate Inv(modulus: nat, s: State) {
    && (forall t | t in s.threads :: ThreadInv(modulus, s, t))
    && (forall t, u | t in s.threads && u in s.threads && s.threads[t].depth > 0 && s.threads[u].depth > 0 :: t == u)
    && (s.spin != 0 ==> exists t :: Holds(s, t))
    && (s.owner != NOBODY ==> Holds(s, s.owner))
  }

  lemma InitInv(modulus: nat, s: State)
    requires Init(s)
    ensures Inv(modulus, s)
  {
  }

  /** The step takes one level more than the counter can tell from a free lock. */
  predicate Overflows(modulus: nat, s: State, e: Event) {
    e.Step? && e.t in s.threads && s.threads[e.t].pc.Enter? && s.threads[e.t].depth + 1 == modulus
  }

  /** The stepping thread touches only what is its own. */
  lemma EnterKeeps(modulus: nat, s: State, t: Tid)
    requires modulus >= 2 && Inv(modulus, s) && t in s.threads && t != NOBODY
    requires s.threads[t].pc.Enter? && s.threads[t].depth + 1 != modulus
    ensures Inv(modulus, Moves(modulus, s, t))
  {
    assert ThreadInv(modulus, s, t);
    DivModUnique(s.spin + 1, modulus, 0, s.spin + 1);
    OthersFree(modulus, s, t);
    assert Holds(Moves(modulus, s, t), t);
  }

  /** While one thread holds the lock, the others hold nothing. */
  lemma OthersFree(modulus: nat, s: State, t: Tid)
    requires Inv(modulus, s) && Holds(s, t)
    ensures forall u | u in s.threads && u != t :: s.threads[u].depth == 0
  {
    forall u | u in s.threads && u != t ensures s.threads[u].depth == 0 {
      assert ThreadInv(modulus, s, u);
    }
  }

  lemma AllFree(modulus: nat, s: State)
    requires Inv(modulus, s) && s.spin == 0
    ensures forall u | u in s.threads :: s.threads[u].depth == 0
    ensures s.owner == NOBODY
  {
    forall u | u in s.threads ensures s.threads[u].depth == 0 {
      assert ThreadInv(modulus, s, u);
    }
  }

  lemma AcquireKeeps(modulus: nat, s: State, t: Tid)
    requires modulus >= 2 && Inv(modulus, s) && t in s.threads && t != NOBODY && s.spin == 0
    requires s.threads[t].pc.Acquire? || (s.threads[t].pc.TryAcquire? && s.threads[t].pc.n > 0)
    ensures Inv(modulus, Moves(modulus, s, t))
  {
    AllFree(modulus, s);
    forall u | u in s.threads ensures ThreadInv(modulus, s, u) {}
    assert Holds(Moves(modulus, s, t), t);
  }

  /** A step that only moves the thread in its code. */
  lemma QuietKeeps(modulus: nat, s: State, t: Tid, pc: Pc)
    requires Inv(modulus, s) && t in s.threads
    requires ThreadInv(modulus, s.Then(t, s.threads[t].(pc := pc)), t)
    ensures Inv(modulus, s.Then(t, s.threads[t].(pc := pc)))
  {
    var s' := s.Then(t, s.threads[t].(pc := pc));
    forall u | u in s'.threads ensures ThreadInv(modulus, s', u) {
      if u != t {
        assert ThreadInv(modulus, s, u);
      }
    }
    forall u | Holds(s, u) ensures Holds(s', u) {}
  }

  lemma HolderKeeps(modulus: nat, s: State, t: Tid)
    requires modulus >= 2 && Inv(modulus, s) && t in s.threads && t != NOBODY
    requires s.threads[t].pc.BeOwner? || s.threads[t].pc.Leave? || s.threads[t].pc.Free? || s.threads[t].pc.Release?
    ensures Inv(modulus, Moves(modulus, s, t))
  {
    assert ThreadInv(modulus, s, t);
    OthersFree(modulus, s, t);
    forall u | u in s.threads ensures ThreadInv(modulus, s, u) {}
    if !s.threads[t].pc.Release? {
      assert Holds(Moves(modulus, s, t), t);
    }
  }

  lemma OtherKeeps(modulus: nat, s: State, t: Tid)
    requires modulus >= 2 && Inv(modulus, s) && t in s.threads && t != NOBODY && !s.threads[t].pc.Away?
    requires var pc := s.threads[t].pc;
             || pc.LockOwned? || pc.TryOwned? || pc.Wait? || pc.UnlockOwned? || pc.LoadSpin? || pc.Return?
             || (pc.Acquire? && s.spin != 0) || (pc.TryAcquire? && (pc.n == 0 || s.spin != 0))
    ensures Inv(modulus, Moves(modulus, s, t))
  {
    assert ThreadInv(modulus, s, t);
    QuietKeeps(modulus, s, t, Moves(modulus, s, t).threads[t].pc);
  }

  lemma StepKeepsInv(modulus: nat, s: State, e: Event)
    requires modulus >= 2 && Inv(modulus, s) && Enabled(s, e) && !Overflows(modulus, s, e)
    ensures Inv(modulus, Exec(modulus, s, e))
  {
    var t := e.t;
    assert ThreadInv(modulus, s, t);
    if !e.Step? {
      QuietKeeps(modulus, s, t, Exec(modulus, s, e).threads[t].pc);
    } else {
      match s.threads[t].pc
      case Enter => EnterKeeps(modulus, s, t);
      case Acquire => if s.spin == 0 { AcquireKeeps(modulus, s, t); } else { OtherKeeps(modulus, s, t); }
      case TryAcquire(n) => if s.spin == 0 && n > 0 { AcquireKeeps(modulus, s, t); } else { OtherKeeps(modulus, s, t); }
      case BeOwner => HolderKeeps(modulus, s, t);
      case Leave => HolderKeeps(modulus, s, t);
      case Free => HolderKeeps(modulus, s, t);
      case Release => HolderKeeps(modulus, s, t);
      case _ => OtherKeeps(modulus, s, t);
    }
  }

  // ---------------------------------------------------------------- runs

  ghost predicate Run(modulus: nat, run: seq<State>, events: seq<Event>) {
    && modulus >= 2 && |run| == |events| + 1 && Init(run[0])
    && forall i {:trigger events[i]} | 0 <= i < |events| ::
         Enabled(run[i], events[i]) && run[i + 1] == Exec(modulus, run[i], events[i])
  }

  ghost predicate NoOverflow(modulus: nat, run: seq<State>, events: seq<Event>) {
    forall i {:trigger events[i]} | 0 <= i < |events| && i < |run| :: !Overflows(modulus, run[i], events[i])
  }

  lemma {:induction false} RunKeepsInv(modulus: nat, run: seq<State>, events: seq<Event>, j: nat)
    requires Run(modulus, run, events) && NoOverflow(modulus, run, events) && j < |run|
    ensures Inv(modulus, run[j])
  {
    if j == 0 {
      InitInv(modulus, run[0]);
    } else {
      RunKeepsInv(modulus, run, events, j - 1);
      assert run[j - 1 + 1] == Exec(modulus, run[j - 1], events[j - 1]);
      StepKeepsInv(modulus, run[j - 1], events[j - 1]);
    }
  }

  /** At most one thread holds the lock, the counter is exactly its nesting depth, and the owner field names a
      thread only while it holds the lock. */
  lemma MutualExclusion(modulus: nat, run: seq<State>, events: seq<Event>, j: nat)
    requires Run(modulus, run, events) && NoOverflow(modulus, run, events) && j < |run|
    ensures forall t, u | Holds(run[j], t) && Holds(run[j], u) :: t == u
    ensures forall t | Holds(run[j], t) :: run[j].spin == run[j].threads[t].depth
    ensures run[j].spin != 0 ==> exists t :: Holds(run[j], t)
    ensures run[j].owner != NOBODY ==> Holds(run[j], run[j].owner)
  {
    RunKeepsInv(modulus, run, events, j);
    forall t | Holds(run[j], t) ensures run[j].spin == run[j].threads[t].depth {
      assert ThreadInv(modulus, run[j], t);
    }
  }

  // ---------------------------------------------------------------- whole calls

  /** The thread is inside the call op, which it entered with depth d: how deep it is wherever it stands. */
  ghost predicate Within(op: Event, d: nat, th: Thread) {
    match op
    case Lock(_) =>
      || ((th.pc.LockOwned? || th.pc.Enter?) && th.depth == d)
      || ((th.pc.Acquire? || th.pc.Wait?) && th.depth == d == 0)
      || ((th.pc.BeOwner? || th.pc == Return(true)) && th.depth == d + 1)
    case TryLock(_, _) =>
      || ((th.pc.TryOwned? || th.pc.Enter?) && th.depth == d)
      || ((th.pc.TryAcquire? || th.pc == Return(false)) && th.depth == d == 0)
      || ((th.pc.BeOwner? || th.pc == Return(true)) && th.depth == d + 1)
    case Unlock(_) =>
      || (th.pc.UnlockOwned? && th.depth == d)
      || ((th.pc.LoadSpin? || th.pc.Leave? || th.pc.Free? || th.pc.Release?) && th.depth == d > 0)
      || (th.pc == Return(true) && th.depth == d - 1)
      || (th.pc == Return(false) && th.depth == d == 0)
    case Step(_) => false
  }

  lemma OwnStepWithin(modulus: nat, s: State, t: Tid, op: Event, d: nat)
    requires modulus >= 2 && Inv(modulus, s) && Enabled(s, Step(t)) && !s.threads[t].pc.Return?
    requires Within(op, d, s.threads[t])
    ensures Within(op, d, Moves(modulus, s, t).threads[t])
  {
    assert ThreadInv(modulus, s, t);
  }

  /** Thread t has been inside the call that it entered by event i. */
  ghost predicate Call(run: seq<State>, events: seq<Event>, i: nat, j: nat, t: Tid) {
    && i < j < |run| == |events| + 1 && events[i].t == t && !events[i].Step? && t in run[i].threads
    && forall l {:trigger run[l]} | i < l <= j :: t in run[l].threads && !run[l].threads[t].pc.Away?
  }

  /** A thread inside a call makes steps only, and ends the call by the step after Return. */
  lemma CallEvent(modulus: nat, run: seq<State>, events: seq<Event>, i: nat, j: nat, t: Tid)
    requires Run(modulus, run, events) && Call(run, events, i, j, t) && i + 1 < j
    ensures run[j] == Exec(modulus, run[j - 1], events[j - 1]) && Enabled(run[j - 1], events[j - 1])
    ensures Call(run, events, i, j - 1, t)
    ensures events[j - 1].t == t ==> events[j - 1] == Step(t) && !run[j - 1].threads[t].pc.Return?
    ensures events[j - 1].t != t ==> run[j].threads[t] == run[j - 1].threads[t]
  {
    assert run[j - 1 + 1] == Exec(modulus, run[j - 1], events[j - 1]);
    assert !run[j - 1].threads[t].pc.Away? && !run[j].threads[t].pc.Away?;
  }

  lemma {:induction false} StaysWithin(modulus: nat, run: seq<State>, events: seq<Event>, i: nat, j: nat, t: Tid)
    requires Run(modulus, run, events) && NoOverflow(modulus, run, events) && Call(run, events, i, j, t)
    ensures Within(events[i], run[i].threads[t].depth, run[j].threads[t])
  {
    if j == i + 1 {
      assert run[j] == Exec(modulus, run[i], events[i]);
    } else {
      CallEvent(modulus, run, events, i, j, t);
      StaysWithin(modulus, run, events, i, j - 1, t);
      if events[j - 1].t == t {
        RunKeepsInv(modulus, run, events, j - 1);
        OwnStepWithin(modulus, run[j - 1], t, events[i], run[i].threads[t].depth);
      }
    }
  }

  /** From its entry to its return, lock takes the caller one level deeper, and tryLock does exactly when it
      succeeds; unlock succeeds exactly for callers that hold the lock, and then leaves one level. */
  lemma CallsCount(modulus: nat, run: seq<State>, events: seq<Event>, i: nat, j: nat, t: Tid)
    requires Run(modulus, run, events) && NoOverflow(modulus, run, events)
    requires Call(run, events, i, j, t) && run[j].threads[t].pc.Return?
    ensures var ok, d, d' := run[j].threads[t].pc.ok, run[i].threads[t].depth, run[j].threads[t].depth;
            match events[i]
            case Lock(_) => ok && d' == d + 1
            case TryLock(_, _) => d' == if ok then d + 1 else d
            case Unlock(_) => (ok <==> Holds(run[i], t)) && d' == if ok then d - 1 else d
            case Step(_) => false
  {
    StaysWithin(modulus, run, events, i, j, t);
  }

  // ---------------------------------------------------------------- when tryLock fails

  /** At instant l thread t tries to take the lock and finds it taken. */
  ghost predicate FindsTaken(run: seq<State>, events: seq<Event>, l: nat, t: Tid)
    requires l < |events| && l < |run|
  {
    events[l] == Step(t) && t in run[l].threads && run[l].threads[t].pc.TryAcquire? && run[l].spin != 0
  }

  /** How often that happens after i and before j. */
  ghost function TimesTaken(run: seq<State>, events: seq<Event>, i: nat, j: nat, t: Tid): nat
    requires j <= |events| && j <= |run|
  {
    if j <= i + 1 then 0
    else TimesTaken(run, events, i, j - 1, t) + if FindsTaken(run, events, j - 1, t) then 1 else 0
  }

  /** The attempts that a tryLock has used up. */
  function Attempts(n: nat, pc: Pc): int {
    match pc
    case TryAcquire(m) => n - m
    case Return(ok) => if ok then 0 else n
    case _ => 0
  }

  /** A tryLock has no more attempts than it was given. */
  predicate GivenAttempts(n: nat, pc: Pc) {
    (pc.TryOwned? ==> pc.n == n) && (pc.TryAcquire? ==> pc.n <= n)
  }

  lemma OwnAttempt(modulus: nat, s: State, t: Tid, n: nat, d: nat)
    requires modulus >= 2 && Enabled(s, Step(t)) && !s.threads[t].pc.Return?
    requires Within(TryLock(t, n), d, s.threads[t]) && GivenAttempts(n, s.threads[t].pc)
    ensures var pc, pc' := s.threads[t].pc, Moves(modulus, s, t).threads[t].pc;
            && GivenAttempts(n, pc')
            && Attempts(n, pc') <= Attempts(n, pc) + if pc.TryAcquire? && s.spin != 0 then 1 else 0
  {
  }

  lemma AttemptStep(modulus: nat, run: seq<State>, events: seq<Event>, i: nat, j: nat, t: Tid, n: nat)
    requires Run(modulus, run, events) && NoOverflow(modulus, run, events) && Call(run, events, i, j + 1, t) && i < j
    requires events[i] == TryLock(t, n) && GivenAttempts(n, run[j].threads[t].pc)
    ensures GivenAttempts(n, run[j + 1].threads[t].pc)
    ensures Attempts(n, run[j + 1].threads[t].pc) <=
              Attempts(n, run[j].threads[t].pc) + if FindsTaken(run, events, j, t) then 1 else 0
  {
    CallEvent(modulus, run, events, i, j + 1, t);
    if events[j].t == t {
      StaysWithin(modulus, run, events, i, j, t);
      OwnAttempt(modulus, run[j], t, n, run[i].threads[t].depth);
    }
  }

  lemma {:induction false} AttemptsMade(modulus: nat, run: seq<State>, events: seq<Event>, i: nat, j: nat,
                                        t: Tid, n: nat)
    requires Run(modulus, run, events) && NoOverflow(modulus, run, events) && Call(run, events, i, j, t)
    requires events[i] == TryLock(t, n)
    ensures GivenAttempts(n, run[j].threads[t].pc)
    ensures TimesTaken(run, events, i, j, t) >= Attempts(n, run[j].threads[t].pc)
  {
    if j == i + 1 {
      assert run[j] == Exec(modulus, run[i], events[i]);
    } else {
      CallEvent(modulus, run, events, i, j, t);
      AttemptsMade(modulus, run, events, i, j - 1, t, n);
      AttemptStep(modulus, run, events, i, j - 1, t, n);
    }
  }

  /** A tryLock with n attempts fails only if the caller does not hold the lock, and the lock was taken at n instants
      within the call, at each of its attempts. */
  lemma TryLockFails(modulus: nat, run: seq<State>, events: seq<Event>, i: nat, j: nat, t: Tid, n: nat)
    requires Run(modulus, run, events) && NoOverflow(modulus, run, events) && Call(run, events, i, j, t)
    requires events[i] == TryLock(t, n) && run[j].threads[t].pc == Return(false)
    ensures !Holds(run[i], t) && TimesTaken(run, events, i, j, t) >= n
  {
    StaysWithin(modulus, run, events, i, j, t);
    AttemptsMade(modulus, run, events, i, j, t, n);
  }

  lemma {:induction false} NeverTaken(run: seq<State>, events: seq<Event>, i: nat, j: nat, t: Tid)
    requires j <= |events| && j <= |run|
    requires forall l {:trigger FindsTaken(run, events, l, t)} | i < l < j :: !FindsTaken(run, events, l, t)
    ensures TimesTaken(run, events, i, j, t) == 0
  {
    if j > i + 1 {
      NeverTaken(run, events, i, j - 1, t);
    }
  }

  /** So tryLock succeeds for the holder, and for anybody, given an attempt, as long as no attempt finds the lock
      taken. */
  lemma TryLockSucceeds(modulus: nat, run: seq<State>, events: seq<Event>, i: nat, j: nat, t: Tid, n: nat)
    requires Run(modulus, run, events) && NoOverflow(modulus, run, events) && Call(run, events, i, j, t)
    requires events[i] == TryLock(t, n) && run[j].threads[t].pc.Return?
    requires Holds(run[i], t) || (n > 0 && forall l | i < l < j :: !FindsTaken(run, events, l, t))
    ensures run[j].threads[t].pc == Return(true)
  {
    if !run[j].threads[t].pc.ok {
      TryLockFails(modulus, run, events, i, j, t, n);
      if !Holds(run[i], t) {
        NeverTaken(run, events, i, j, t);
      }
    }
  }

  // ---------------------------------------------------------------- calls end

  /** How many of its own steps a call needs at most, but for the waiting of lock while the lock is taken. */
  function StepsLeft(pc: Pc): nat {
    match pc
    case Away => 0
    case Return(_) => 1
    case Enter => 2
    case BeOwner => 2
    case Release => 2
    case Leave => 2
    case Free => 3
    case LoadSpin => 4
    case UnlockOwned => 5
    case Acquire => 3
    case Wait => 4
    case LockOwned => 5
    case TryAcquire(n) => n + 3
    case TryOwned(n) => n + 4
  }

  /** Every step brings a call nearer to its end, unless lock finds the lock taken. */
  lemma CallsEnd(modulus: nat, s: State, t: Tid)
    requires modulus >= 2 && Enabled(s, Step(t))
    ensures var pc, pc' := s.threads[t].pc, Moves(modulus, s, t).threads[t].pc;
            StepsLeft(pc') < StepsLeft(pc) || (s.spin != 0 && (pc.Acquire? || pc.Wait?) && pc' == Wait)
  {
  }

  // ---------------------------------------------------------------- failed attempts

  /** On the way to failure. */
  predicate Failing(pc: Pc) {
    pc.TryOwned? || pc.TryAcquire? || pc == Return(false)
  }

  lemma FailingStep(modulus: nat, s: State, t: Tid, op: Event, d: nat)
    requires modulus >= 2 && t in s.threads && op.TryLock? && Within(op, d, s.threads[t])
    requires !s.threads[t].pc.Return? && Failing(Moves(modulus, s, t).threads[t].pc)
    ensures Failing(s.threads[t].pc) && Moves(modulus, s, t) == s.Then(t, Moves(modulus, s, t).threads[t])
  {
  }

  /** A call on the way to failure was so before, and its last step changed nothing. */
  lemma FailingBefore(modulus: nat, run: seq<State>, events: seq<Event>, i: nat, j: nat, t: Tid)
    requires Run(modulus, run, events) && NoOverflow(modulus, run, events) && Call(run, events, i, j, t) && i + 1 < j
    requires events[i].TryLock? && Failing(run[j].threads[t].pc)
    ensures Call(run, events, i, j - 1, t) && Failing(run[j - 1].threads[t].pc)
    ensures events[j - 1].t == t ==> run[j] == run[j - 1].Then(t, run[j].threads[t])
  {
    CallEvent(modulus, run, events, i, j, t);
    if events[j - 1].t == t {
      StaysWithin(modulus, run, events, i, j - 1, t);
      FailingStep(modulus, run[j - 1], t, events[i], run[i].threads[t].depth);
    }
  }

  /** No step of a tryLock that fails changes the lock. */
  lemma {:induction false} FailureChangesNothing(modulus: nat, run: seq<State>, events: seq<Event>, i: nat, j: nat,
                                                 t: Tid, l: nat)
    requires Run(modulus, run, events) && NoOverflow(modulus, run, events) && Call(run, events, i, j, t)
    requires events[i].TryLock? && Failing(run[j].threads[t].pc) && i <= l < j && events[l].t == t
    ensures t in run[l + 1].threads && run[l + 1] == run[l].Then(t, run[l + 1].threads[t])
    decreases j
  {
    if j == i + 1 {
      assert run[i + 1] == Exec(modulus, run[i], events[i]);
    } else {
      FailingBefore(modulus, run, events, i, j, t);
      if l < j - 1 {
        FailureChangesNothing(modulus, run, events, i, j - 1, t, l);
      }
    }
  }

  // ---------------------------------------------------------------- when the counter overflows

  lemma {:induction false} InvLow(modulus: nat, s: State, t: Tid)
    requires modulus >= 2 && Inv(modulus, s) && Holds(s, t)
    ensures s.spin == s.threads[t].depth && s.threads[t].depth < modulus
  {
    assert ThreadInv(modulus, s, t);
  }

  /** One level too many makes the counter 0, and the lock looks free: any other thread that asks for it gets it,
      although the first still holds it. So the lock excludes exactly while no thread nests deeper than the
      counter can count. */
  lemma OverflowBreaks(modulus: nat, s: State, t: Tid, u: Tid) returns (s': State)
    requires modulus >= 2 && Inv(modulus, s) && Overflows(modulus, s, Step(t)) && Enabled(s, Step(t))
    requires u in s.threads && u != t && u != NOBODY && s.threads[u].pc.Acquire?
    ensures s' == Exec(modulus, Exec(modulus, s, Step(t)), Step(u))
    ensures Holds(s', t) && Holds(s', u)
  {
    InvLow(modulus, s, t);
    DivModUnique(modulus, modulus, 1, 0);
    s' := Exec(modulus, Exec(modulus, s, Step(t)), Step(u));
  }

  ghost predicate Reaches(modulus: nat, s: State) {
    exists run, events :: Run(modulus, run, events) && NoOverflow(modulus, run, events) && run[|run| - 1] == s
  }

  lemma ReachesNext(modulus: nat, s: State, e: Event)
    requires modulus >= 2 && Reaches(modulus, s) && Enabled(s, e) && !Overflows(modulus, s, e)
    ensures Reaches(modulus, Exec(modulus, s, e))
  {
    var run, events :| Run(modulus, run, events) && NoOverflow(modulus, run, events) && run[|run| - 1] == s;
    var run', events' := run + [Exec(modulus, s, e)], events + [e];
    forall i | 0 <= i < |events'|
      ensures Enabled(run'[i], events'[i]) && run'[i + 1] == Exec(modulus, run'[i], events'[i])
              && !Overflows(modulus, run'[i], events'[i])
    {
      if i < |events| {
        assert events'[i] == events[i];
      }
    }
    assert Run(modulus, run', events') && NoOverflow(modulus, run', events');
  }

  /** Thread 1 holds the lock d times, thread 2 waits for it. */
  function Nested(d: nat): State {
    State(d, 1, map[1 := Thread(Away, d), 2 := Thread(Acquire, 0)])
  }

  lemma FirstCaller(modulus: nat)
    requires modulus >= 2
    ensures Reaches(modulus, State(0, NOBODY, map[1 := Thread(Away, 0), 2 := Thread(Acquire, 0)]))
  {
    var s0 := State(0, NOBODY, map[1 := Thread(Away, 0), 2 := Thread(Away, 0)]);
    assert Run(modulus, [s0], []) && NoOverflow(modulus, [s0], []) && [s0][0] == s0;
    ReachesNext(modulus, s0, Lock(2));
    var s1 := Exec(modulus, s0, Lock(2));
    ReachesNext(modulus, s1, Step(2));
    assert Exec(modulus, s1, Step(2)) == State(0, NOBODY, map[1 := Thread(Away, 0), 2 := Thread(Acquire, 0)]);
  }

  lemma FirstWaiter(modulus: nat)
    requires modulus >= 2
    ensures Reaches(modulus, State(0, NOBODY, map[1 := Thread(Acquire, 0), 2 := Thread(Acquire, 0)]))
  {
    FirstCaller(modulus);
    var s2 := State(0, NOBODY, map[1 := Thread(Away, 0), 2 := Thread(Acquire, 0)]);
    ReachesNext(modulus, s2, Lock(1));
    var s3 := Exec(modulus, s2, Lock(1));
    ReachesNext(modulus, s3, Step(1));
    assert Exec(modulus, s3, Step(1)) == State(0, NOBODY, map[1 := Thread(Acquire, 0), 2 := Thread(Acquire, 0)]);
  }

  lemma FirstLock(modulus: nat)
    requires modulus >= 2
    ensures Reaches(modulus, Nested(1))
  {
    FirstWaiter(modulus);
    var s0 := State(0, NOBODY, map[1 := Thread(Acquire, 0), 2 := Thread(Acquire, 0)]);
    ReachesNext(modulus, s0, Step(1));
    var s1 := Exec(modulus, s0, Step(1));
    assert s1 == State(1, NOBODY, map[1 := Thread(BeOwner, 1), 2 := Thread(Acquire, 0)]);
    ReachesNext(modulus, s1, Step(1));
    var s2 := Exec(modulus, s1, Step(1));
    ReachesNext(modulus, s2, Step(1));
    assert Exec(modulus, s2, Step(1)) == Nested(1);
  }

  /** The holder calls lock once more. */
  function Entering(d: nat): State {
    State(d, 1, map[1 := Thread(Enter, d), 2 := Thread(Acquire, 0)])
  }

  lemma NestEnters(modulus: nat, d: nat)
    requires modulus >= 2 && 1 <= d && Reaches(modulus, Nested(d))
    ensures Reaches(modulus, Entering(d))
  {
    var s0 := Nested(d);
    ReachesNext(modulus, s0, Lock(1));
    var s1 := Exec(modulus, s0, Lock(1));
    ReachesNext(modulus, s1, Step(1));
    assert Exec(modulus, s1, Step(1)) == Entering(d);
  }

  lemma NestCounts(modulus: nat, d: nat)
    requires modulus >= 2 && 1 <= d && d + 1 < modulus && Reaches(modulus, Entering(d))
    ensures Reaches(modulus, Nested(d + 1))
  {
    var s0 := Entering(d);
    DivModUnique(d + 1, modulus, 0, d + 1);
    ReachesNext(modulus, s0, Step(1));
    var s1 := Exec(modulus, s0, Step(1));
    ReachesNext(modulus, s1, Step(1));
    assert Exec(modulus, s1, Step(1)) == Nested(d + 1);
  }

  lemma NestOnce(modulus: nat, d: nat)
    requires modulus >= 2 && 1 <= d && d + 1 < modulus && Reaches(modulus, Nested(d))
    ensures Reaches(modulus, Nested(d + 1))
  {
    NestEnters(modulus, d);
    NestCounts(modulus, d);
  }

  lemma {:induction false} NestsTo(modulus: nat, d: nat)
    requires modulus >= 2 && 1 <= d < modulus
    ensures Reaches(modulus, Nested(d))
  {
    if d == 1 {
      FirstLock(modulus);
    } else {
      NestsTo(modulus, d - 1);
      NestOnce(modulus, d - 1);
    }
  }

  /** Whatever the width of the counter, calls of lock alone lead to such a state. */
  lemma OverflowHappens(modulus: nat) returns (s: State, s': State)
    requires modulus >= 2
    ensures Reaches(modulus, s) && Holds(s', 1) && Holds(s', 2)
    ensures Enabled(s, Step(1)) && Overflows(modulus, s, Step(1))
    ensures Enabled(Exec(modulus, s, Step(1)), Step(2)) && s' == Exec(modulus, Exec(modulus, s, Step(1)), Step(2))
  {
    NestsTo(modulus, modulus - 1);
    NestEnters(modulus, modulus - 1);
    s := Entering(modulus - 1);
    DivModUnique(modulus, modulus, 1, 0);
    s' := Exec(modulus, Exec(modulus, s, Step(1)), Step(2));
  }
}
