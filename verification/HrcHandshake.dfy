/** One slot of a thread's retired array in the counting collector: its owner retires nodes into it and
    destroys them, while any number of cleaners call cleanUp on the node they find there. */
module HrcHandshake {

  /** Addresses are numbers; 0 is NULL. */
  type Ptr = nat

  type Tid = nat

  datatype OwnerPc =
    | Idle
    | ResetDone(q: Ptr)    // push of q: m_bDone = false
    | ResetClaim(q: Ptr)   // m_nClaim = 0
    | StoreNode(q: Ptr)    // m_pNode = q
    | TakeDone(p: Ptr)     // Scan has stored NULL: CAS( m_bDone, false, true )
    | ReadClaim(p: Ptr)    // is m_nClaim 0?
    | Destroy(p: Ptr)
    | Pop
    | ReleaseDone(p: Ptr)  // m_bDone = false
    | RestoreNode(p: Ptr)  // m_pNode = p

  datatype CleanerPc =
    | Away                 // load m_pNode
    | Seen(p: Ptr)         // load m_bDone
    | Enter(p: Ptr)        // ++m_nClaim
    | CheckDone(p: Ptr)    // load m_bDone again
    | CheckNode(p: Ptr)    // load m_pNode again
    | Cleaning(p: Ptr)     // p->cleanUp
    | Leave                // --m_nClaim

  /** alive holds the nodes that are not destroyed. An address may be used again for a new node. */
  datatype State = State(
    node: Ptr, done: bool, claim: int, isFree: bool, owner: OwnerPc, cleaners: map<Tid, CleanerPc>, alive: set<Ptr>)

  datatype Event =
    | Push(q: Ptr)         // the owner retires q into this slot, which is free
    | Scan                 // the owner's scan finds the slot's node unreferenced and stores NULL
    | OwnerStep
    | CleanerStep(c: Tid)

  predicate Enabled(s: State, e: Event) {
    match e
    case Push(q) => s.owner == Idle && s.isFree && q != 0
    case Scan => s.owner == Idle && !s.isFree && s.node != 0
    case OwnerStep => s.owner != Idle
    case CleanerStep(c) => c in s.cleaners
  }

  function OwnerMoves(s: State): State
    requires s.owner != Idle
  {
    match s.owner
    case ResetDone(q) => s.(done := false, owner := ResetClaim(q))
    case ResetClaim(q) => s.(claim := 0, owner := StoreNode(q))
    case StoreNode(q) => s.(node := q, isFree := false, owner := Idle)
    case TakeDone(p) => if s.done then s.(owner := RestoreNode(p)) else s.(done := true, owner := ReadClaim(p))
    case ReadClaim(p) => s.(owner := if s.claim == 0 then Destroy(p) else ReleaseDone(p))
    case Destroy(p) => s.(alive := s.alive - {p}, owner := Pop)
    case Pop => s.(node := 0, isFree := true, owner := Idle)
    case ReleaseDone(p) => s.(done := false, owner := RestoreNode(p))
    case RestoreNode(p) => s.(node := p, owner := Idle)
  }

  function CleanerMoves(s: State, c: Tid): State
    requires c in s.cleaners
  {
    match s.cleaners[c]
    case Away => if s.node == 0 then s else s.(cleaners := s.cleaners[c := Seen(s.node)])
    case Seen(p) => s.(cleaners := s.cleaners[c := if s.done then Away else Enter(p)])
    case Enter(p) => s.(claim := s.claim + 1, cleaners := s.cleaners[c := CheckDone(p)])
    case CheckDone(p) => s.(cleaners := s.cleaners[c := if s.done then Leave else CheckNode(p)])
    case CheckNode(p) => s.(cleaners := s.cleaners[c := if s.node == p then Cleaning(p) else Leave])
    case Cleaning(p) => s.(cleaners := s.cleaners[c := Leave])
    case Leave => s.(claim := s.claim - 1, cleaners := s.cleaners[c := Away])
  }

  function Exec(s: State, e: Event): State
    requires Enabled(s, e)
  {
    match e
    case Push(q) => s.(alive := s.alive + {q}, owner := ResetDone(q))
    case Scan => s.(node := 0, owner := TakeDone(s.node))
    case OwnerStep => OwnerMoves(s)
    case CleanerStep(c) => CleanerMoves(s, c)
  }

  predicate Init(s: State) {
    && s.node == 0 && !s.done && s.claim == 0 && s.isFree && s.owner == Idle
    && forall c | c in s.cleaners :: s.cleaners[c] == Away
  }

  /** A cleaner calls cleanUp on a destroyed node. */
  ghost predicate Violation(s: State) {
    exists c :: c in s.cleaners && s.cleaners[c].Cleaning? && s.cleaners[c].p !in s.alive
  }

  /** The step of push that resets the claim counter finds a cleaner's claim in it. */
  predicate Wipes(s: State, e: Event) {
    e == OwnerStep && s.owner.ResetClaim? && s.claim != 0
  }

  // ---------------------------------------------------------------- the invariant

  predicate Holds(pc: CleanerPc) {
    pc.CheckDone? || pc.CheckNode? || pc.Cleaning? || pc.Leave?
  }

  /** The cleaners between the increment and the decrement of the claim. */
  ghost function Holders(s: State): set<Tid> {
    HoldersAmong(s.cleaners)
  }

  ghost function HoldersAmong(cleaners: map<Tid, CleanerPc>): set<Tid> {
    set c | c in cleaners && Holds(cleaners[c])
  }

  /** The node of the slot, also while a scan has it in hand and has not yet decided to destroy it. */
  function Current(s: State): Ptr {
    match s.owner
    case Idle => s.node
    case TakeDone(p) => p
    case ReadClaim(p) => p
    case ReleaseDone(p) => p
    case RestoreNode(p) => p
    case _ => 0
  }

  /** What the owner's place in its code says about the slot. */
  ghost predicate OwnerOk(s: State) {
    match s.owner
    case Idle => if s.isFree then s.node == 0 else s.node != 0 && s.node in s.alive && !s.done
    case ResetDone(q) => s.isFree && s.node == 0 && q != 0 && q in s.alive
    case ResetClaim(q) => s.isFree && s.node == 0 && !s.done && q != 0 && q in s.alive
    case StoreNode(q) => s.isFree && s.node == 0 && !s.done && q != 0 && q in s.alive
    case TakeDone(p) => !s.isFree && s.node == 0 && !s.done && p != 0 && p in s.alive
    case ReadClaim(p) => !s.isFree && s.node == 0 && s.done && p != 0 && p in s.alive
    case Destroy(p) => !s.isFree && s.node == 0 && s.done && p != 0 && p in s.alive
    case Pop => !s.isFree && s.node == 0
    case ReleaseDone(p) => !s.isFree && s.node == 0 && p != 0 && p in s.alive
    case RestoreNode(p) => !s.isFree && s.node == 0 && !s.done && p != 0 && p in s.alive
  }

  /** What a cleaner relies on while the slot's node is current. */
  predicate CleanerOk(pc: CleanerPc, current: Ptr) {
    match pc
    case Away => true
    case Leave => true
    case Cleaning(p) => p != 0 && p == current
    case _ => pc.p != 0
  }

  ghost predicate Inv(s: State) {
    && OwnerOk(s)
    && s.claim == |Holders(s)|
    && forall c | c in s.cleaners :: CleanerOk(s.cleaners[c], Current(s))
  }

  lemma InitInv(s: State)
    requires Init(s)
    ensures Inv(s)
  {
    assert Holders(s) == {};
  }

  lemma InvSafe(s: State)
    requires Inv(s)
    ensures !Violation(s)
  {
  }

  lemma ClaimTells(s: State)
    requires Inv(s) && s.claim == 0
    ensures forall c | c in s.cleaners :: !Holds(s.cleaners[c])
  {
    assert Holders(s) == {};
    forall c | c in s.cleaners ensures !Holds(s.cleaners[c]) {
      assert c !in Holders(s);
    }
  }

  lemma OwnerKeeps(s: State)
    requires Inv(s) && s.owner != Idle && !Wipes(s, OwnerStep)
    ensures Inv(OwnerMoves(s))
  {
    var s' := OwnerMoves(s);
    assert Holders(s') == Holders(s);
    if s.owner.ReadClaim? && s.claim == 0 {
      ClaimTells(s);
    }
  }

  lemma HolderMoves(cleaners: map<Tid, CleanerPc>, c: Tid, pc: CleanerPc)
    requires c in cleaners
    ensures Holds(pc) == Holds(cleaners[c]) ==> |HoldersAmong(cleaners[c := pc])| == |HoldersAmong(cleaners)|
    ensures Holds(pc) && !Holds(cleaners[c]) ==> |HoldersAmong(cleaners[c := pc])| == |HoldersAmong(cleaners)| + 1
    ensures !Holds(pc) && Holds(cleaners[c]) ==> |HoldersAmong(cleaners[c := pc])| == |HoldersAmong(cleaners)| - 1
  {
    var h, h' := HoldersAmong(cleaners), HoldersAmong(cleaners[c := pc]);
    if Holds(pc) == Holds(cleaners[c]) {
      assert h' == h;
    } else if Holds(pc) {
      assert h' == h + {c};
    } else {
      assert h == h' + {c};
    }
  }

  lemma CleanerCounts(s: State, c: Tid)
    requires Inv(s) && c in s.cleaners
    ensures CleanerMoves(s, c).claim == |Holders(CleanerMoves(s, c))|
  {
    var s' := CleanerMoves(s, c);
    if s.cleaners[c] != Away || s.node != 0 {
      HolderMoves(s.cleaners, c, s'.cleaners[c]);
    }
  }

  /** The second look at the flag and the node is what lets a cleaner clean. */
  lemma CleanerRelies(s: State, c: Tid)
    requires OwnerOk(s) && c in s.cleaners && CleanerOk(s.cleaners[c], Current(s))
    ensures CleanerOk(CleanerMoves(s, c).cleaners[c], Current(s))
  {
  }

  lemma CleanerFrame(s: State, c: Tid)
    requires c in s.cleaners
    ensures CleanerMoves(s, c) == s.(claim := CleanerMoves(s, c).claim,
                                     cleaners := s.cleaners[c := CleanerMoves(s, c).cleaners[c]])
  {
    if s.cleaners[c] == Away && s.node == 0 {
      assert s.cleaners[c := Away] == s.cleaners;
    }
  }

  lemma CleanerKeeps(s: State, c: Tid)
    requires Inv(s) && c in s.cleaners
    ensures Inv(CleanerMoves(s, c))
  {
    CleanerCounts(s, c);
    CleanerRelies(s, c);
    CleanerFrame(s, c);
  }

  lemma StepKeepsInv(s: State, e: Event)
    requires Inv(s) && Enabled(s, e) && !Wipes(s, e)
    ensures Inv(Exec(s, e))
  {
    match e
    case OwnerStep => OwnerKeeps(s);
    case CleanerStep(c) => CleanerKeeps(s, c);
    case _ => assert Holders(Exec(s, e)) == Holders(s);
  }

  // ---------------------------------------------------------------- runs

  ghost predicate Run(run: seq<State>, events: seq<Event>) {
    && |run| == |events| + 1 && Init(run[0])
    && forall i {:trigger events[i]} | 0 <= i < |events| ::
         Enabled(run[i], events[i]) && run[i + 1] == Exec(run[i], events[i])
  }

  ghost predicate NoWipe(run: seq<State>, events: seq<Event>) {
    forall i {:trigger events[i]} | 0 <= i < |events| && i < |run| :: !Wipes(run[i], events[i])
  }

  lemma {:induction false} RunKeepsInv(run: seq<State>, events: seq<Event>, j: nat)
    requires Run(run, events) && NoWipe(run, events) && j < |run|
    ensures Inv(run[j])
  {
    if j == 0 {
      InitInv(run[0]);
    } else {
      RunKeepsInv(run, events, j - 1);
      assert run[j - 1 + 1] == Exec(run[j - 1], events[j - 1]);
      StepKeepsInv(run[j - 1], events[j - 1]);
    }
  }

  /** As long as every reuse of the slot resets a counter that is 0 at that moment, no cleaner ever calls
      cleanUp on a destroyed node, whatever the number of cleaners. */
  lemma HandshakeSafe(run: seq<State>, events: seq<Event>, j: nat)
    requires Run(run, events) && NoWipe(run, events) && j < |run|
    ensures !Violation(run[j])
  {
    RunKeepsInv(run, events, j);
    InvSafe(run[j]);
  }

  // ---------------------------------------------------------------- whole calls of the owner

  /** The owner has been inside the push, or the scan of the slot, that event i began. */
  ghost predicate OwnerCall(run: seq<State>, events: seq<Event>, i: nat, j: nat) {
    && i < j < |run| == |events| + 1 && (events[i].Push? || events[i] == Scan)
    && forall l {:trigger run[l]} | i < l <= j :: run[l].owner != Idle
  }

  /** At instant k the owner reads the claim of the slot that held p. */
  ghost predicate ReadsClaim(run: seq<State>, events: seq<Event>, k: nat, p: Ptr, free: bool) {
    && k < |run| && k < |events| && events[k] == OwnerStep && run[k].owner == ReadClaim(p)
    && (free <==> run[k].claim == 0)
  }

  /** What the owner has done of a push of q. */
  predicate PushesOn(s: State, q: Ptr) {
    s.owner == ResetDone(q) || ((s.owner == ResetClaim(q) || s.owner == StoreNode(q)) && !s.done)
  }

  /** What the owner has done of a scan of the slot that held p, having read the claim at instant k. */
  ghost predicate ScansOn(run: seq<State>, events: seq<Event>, k: nat, s: State, p: Ptr) {
    match s.owner
    case TakeDone(x) => x == p && !s.done
    case ReadClaim(x) => x == p
    case Destroy(x) => x == p && ReadsClaim(run, events, k, p, true)
    case Pop => p !in s.alive && ReadsClaim(run, events, k, p, true)
    case ReleaseDone(x) => x == p && ReadsClaim(run, events, k, p, false)
    case RestoreNode(x) => x == p && !s.done && ReadsClaim(run, events, k, p, false)
    case _ => false
  }

  /** Cleaners leave the owner's place and the slot alone, but for the claim. */
  lemma CleanersLeaveSlot(s: State, e: Event)
    requires Enabled(s, e) && s.owner != Idle && e != OwnerStep
    ensures var s' := Exec(s, e);
            && s'.owner == s.owner && s'.node == s.node && s'.done == s.done
            && s'.isFree == s.isFree && s'.alive == s.alive
  {
  }

  lemma {:induction false} PushSoFar(run: seq<State>, events: seq<Event>, i: nat, j: nat)
    requires Run(run, events) && OwnerCall(run, events, i, j) && events[i].Push?
    ensures PushesOn(run[j], events[i].q)
  {
    assert run[j - 1 + 1] == Exec(run[j - 1], events[j - 1]);
    if i + 1 < j {
      assert run[j - 1].owner != Idle;
      PushSoFar(run, events, i, j - 1);
      if events[j - 1] != OwnerStep {
        CleanersLeaveSlot(run[j - 1], events[j - 1]);
      }
    }
  }

  /** A push leaves its node in the slot, which is in use and not being destroyed. */
  lemma PushStores(run: seq<State>, events: seq<Event>, i: nat, j: nat)
    requires Run(run, events) && OwnerCall(run, events, i, j) && events[i].Push?
    requires j < |events| && run[j + 1].owner == Idle
    ensures run[j + 1].node == events[i].q && !run[j + 1].isFree && !run[j + 1].done
  {
    PushSoFar(run, events, i, j);
    assert run[j + 1] == Exec(run[j], events[j]);
    if events[j] != OwnerStep {
      CleanersLeaveSlot(run[j], events[j]);
    }
  }

  lemma OwnerKeepsOk(s: State, e: Event)
    requires OwnerOk(s) && Enabled(s, e)
    ensures OwnerOk(Exec(s, e))
  {
    match e
    case CleanerStep(c) => CleanerFrame(s, c);
    case _ =>
  }

  lemma {:induction false} RunKeepsOwnerOk(run: seq<State>, events: seq<Event>, j: nat)
    requires Run(run, events) && j < |run|
    ensures OwnerOk(run[j])
  {
    if j > 0 {
      RunKeepsOwnerOk(run, events, j - 1);
      assert run[j - 1 + 1] == Exec(run[j - 1], events[j - 1]);
      OwnerKeepsOk(run[j - 1], events[j - 1]);
    }
  }

  lemma {:induction false} ScanSoFar(run: seq<State>, events: seq<Event>, i: nat, j: nat) returns (k: nat)
    requires Run(run, events) && OwnerCall(run, events, i, j) && events[i] == Scan
    ensures ScansOn(run, events, k, run[j], run[i].node)
    ensures run[j].owner.TakeDone? || run[j].owner.ReadClaim? || i < k < j
  {
    assert run[j - 1 + 1] == Exec(run[j - 1], events[j - 1]);
    k := j - 1;
    if i + 1 < j {
      assert run[j - 1].owner != Idle;
      var l := ScanSoFar(run, events, i, j - 1);
      if events[j - 1] != OwnerStep {
        CleanersLeaveSlot(run[j - 1], events[j - 1]);
        k := l;
      } else if !run[j - 1].owner.ReadClaim? {
        k := l;
      }
    } else {
      RunKeepsOwnerOk(run, events, i);
    }
  }

  /** A scan of a slot whose node nobody references destroys the node and frees the slot, or leaves both as they were,
      according to whether the claim counter was 0 at an instant k within the call. */
  lemma ScanDecides(run: seq<State>, events: seq<Event>, i: nat, j: nat) returns (k: nat)
    requires Run(run, events) && OwnerCall(run, events, i, j) && events[i] == Scan
    requires j < |events| && run[j + 1].owner == Idle
    ensures var p, s := run[i].node, run[j + 1];
            || (s.isFree && s.node == 0 && p !in s.alive && ReadsClaim(run, events, k, p, true))
            || (!s.isFree && s.node == p && p in s.alive && !s.done && ReadsClaim(run, events, k, p, false))
    ensures i < k < j
  {
    k := ScanSoFar(run, events, i, j);
    RunKeepsOwnerOk(run, events, j);
    assert run[j + 1] == Exec(run[j], events[j]);
    if events[j] != OwnerStep {
      CleanersLeaveSlot(run[j], events[j]);
    }
  }

  // ---------------------------------------------------------------- what a cleaner has checked

  /** The instants of a cleaner's checks on the way to cleanUp of p: the flag, the flag again under its claim, the
      node. */
  datatype Checks = Checks(flag: nat, again: nat, node: nat)

  /** At instant k cleaner c makes the step that begins at pc. */
  ghost predicate Makes(run: seq<State>, events: seq<Event>, k: nat, c: Tid, pc: CleanerPc) {
    k < |run| && k < |events| && events[k] == CleanerStep(c) && c in run[k].cleaners && run[k].cleaners[c] == pc
  }

  ghost predicate FlagClear(run: seq<State>, events: seq<Event>, k: nat, c: Tid, p: Ptr) {
    Makes(run, events, k, c, Seen(p)) && !run[k].done
  }

  ghost predicate StillClear(run: seq<State>, events: seq<Event>, k: nat, c: Tid, p: Ptr) {
    Makes(run, events, k, c, CheckDone(p)) && !run[k].done
  }

  ghost predicate NodeThere(run: seq<State>, events: seq<Event>, k: nat, c: Tid, p: Ptr) {
    Makes(run, events, k, c, CheckNode(p)) && run[k].node == p
  }

  /** Where the cleaner stands tells what it has checked. */
  ghost predicate Checked(run: seq<State>, events: seq<Event>, c: Tid, pc: CleanerPc, at: Checks, j: nat) {
    match pc
    case Enter(p) => at.flag < j && FlagClear(run, events, at.flag, c, p)
    case CheckDone(p) => at.flag < j && FlagClear(run, events, at.flag, c, p)
    case CheckNode(p) =>
      at.flag < at.again < j && FlagClear(run, events, at.flag, c, p) && StillClear(run, events, at.again, c, p)
    case Cleaning(p) =>
      && at.flag < at.again < at.node < j && FlagClear(run, events, at.flag, c, p)
      && StillClear(run, events, at.again, c, p) && NodeThere(run, events, at.node, c, p)
    case _ => true
  }

  lemma OtherCleaner(s: State, e: Event, c: Tid)
    requires Enabled(s, e) && c in Exec(s, e).cleaners && e != CleanerStep(c)
    ensures c in s.cleaners && Exec(s, e).cleaners[c] == s.cleaners[c]
  {
    if e.CleanerStep? {
      CleanerFrame(s, e.c);
    }
  }

  lemma CleanerMoved(run: seq<State>, events: seq<Event>, j: nat, c: Tid)
    requires Run(run, events) && j < |events| && c in run[j + 1].cleaners
    ensures c in run[j].cleaners
    ensures run[j + 1].cleaners[c] ==
              if events[j] == CleanerStep(c) then CleanerMoves(run[j], c).cleaners[c] else run[j].cleaners[c]
  {
    assert run[j + 1] == Exec(run[j], events[j]);
    if events[j] != CleanerStep(c) {
      OtherCleaner(run[j], events[j], c);
    }
  }

  lemma OwnCheck(run: seq<State>, events: seq<Event>, j: nat, c: Tid, at: Checks) returns (at': Checks)
    requires j < |events| && j < |run| && events[j] == CleanerStep(c) && c in run[j].cleaners
    requires Checked(run, events, c, run[j].cleaners[c], at, j)
    ensures Checked(run, events, c, CleanerMoves(run[j], c).cleaners[c], at', j + 1)
  {
    at' := match run[j].cleaners[c]
      case Seen(_) => at.(flag := j)
      case CheckDone(_) => at.(again := j)
      case CheckNode(_) => at.(node := j)
      case _ => at;
  }

  lemma {:induction false} CleanerChecks(run: seq<State>, events: seq<Event>, j: nat, c: Tid) returns (at: Checks)
    requires Run(run, events) && j < |run| && c in run[j].cleaners
    ensures Checked(run, events, c, run[j].cleaners[c], at, j)
  {
    if j == 0 {
      at := Checks(0, 0, 0);
    } else if events[j - 1] == CleanerStep(c) {
      CleanerMoved(run, events, j - 1, c);
      at := CleanerChecks(run, events, j - 1, c);
      at := OwnCheck(run, events, j - 1, c, at);
    } else {
      CleanerMoved(run, events, j - 1, c);
      at := CleanerChecks(run, events, j - 1, c);
    }
  }

  /** In every run a cleaner calls cleanUp only on a node for which it found, one after the other, the flag clear, the
      flag clear again after it had raised its claim, and the node still in the slot. */
  lemma CleansChecked(run: seq<State>, events: seq<Event>, j: nat, c: Tid, p: Ptr) returns (at: Checks)
    requires Run(run, events) && j < |run| && c in run[j].cleaners && run[j].cleaners[c] == Cleaning(p)
    ensures at.flag < at.again < at.node < j && FlagClear(run, events, at.flag, c, p)
    ensures StillClear(run, events, at.again, c, p) && NodeThere(run, events, at.node, c, p)
  {
    at := CleanerChecks(run, events, j, c);
  }

  // ---------------------------------------------------------------- when a reset wipes a claim

  /** The assertions at the beginning of push: the slot's counter is 0, and it holds no node. */
  predicate Asserts(s: State, e: Event) {
    e.Push? ==> s.claim == 0 && s.node == 0
  }

  /** The events are possible one after the other, no assertion fails, and they lead to a violation. */
  ghost predicate Leads(s: State, events: seq<Event>)
    decreases |events|
  {
    if events == [] then Violation(s)
    else Enabled(s, events[0]) && Asserts(s, events[0]) && Leads(Exec(s, events[0]), events[1..])
  }

  ghost predicate Doomed(s: State) {
    exists events :: Leads(s, events)
  }

  lemma DoomedBefore(s: State, e: Event)
    requires Enabled(s, e) && Asserts(s, e) && Doomed(Exec(s, e))
    ensures Doomed(s)
  {
    var events :| Leads(Exec(s, e), events);
    assert ([e] + events)[1..] == events;
    assert Leads(s, [e] + events);
  }

  /** A cleaner that the counter does not show is about to call cleanUp: a scan destroys the node under it. */
  lemma ScanDestroys(s: State, c: Tid)
    requires s.owner == Idle && !s.isFree && s.node != 0 && !s.done && s.claim == 0
    requires c in s.cleaners && s.cleaners[c] == Cleaning(s.node)
    ensures Doomed(s)
  {
    var s1 := Exec(s, Scan);
    var s2 := Exec(s1, OwnerStep);
    var s3 := Exec(s2, OwnerStep);
    var s4 := Exec(s3, OwnerStep);
    assert s4.cleaners[c] == Cleaning(s.node) && s.node !in s4.alive;
    assert Leads(s4, []);
    DoomedBefore(s3, OwnerStep);
    DoomedBefore(s2, OwnerStep);
    DoomedBefore(s1, OwnerStep);
    DoomedBefore(s, Scan);
  }

  /** With the counter one too low, a cleaner's next visit leaves it at 0. */
  lemma NextVisit(s: State, c: Tid)
    requires s.owner == Idle && !s.isFree && s.node != 0 && !s.done && s.claim == -1
    requires c in s.cleaners && s.cleaners[c] == Away
    ensures Doomed(s)
  {
    var e := CleanerStep(c);
    var s1 := Exec(s, e);
    var s2 := Exec(s1, e);
    var s3 := Exec(s2, e);
    var s4 := Exec(s3, e);
    var s5 := Exec(s4, e);
    ScanDestroys(s5, c);
    DoomedBefore(s4, e);
    DoomedBefore(s3, e);
    DoomedBefore(s2, e);
    DoomedBefore(s1, e);
    DoomedBefore(s, e);
  }

  /** The cleaner whose claim was wiped goes on. */
  lemma WipedGoesOn(s: State, c: Tid)
    requires s.owner == Idle && !s.isFree && s.node != 0 && !s.done && s.claim == 0
    requires c in s.cleaners && (s.cleaners[c].CheckDone? || s.cleaners[c].CheckNode? || s.cleaners[c].Leave?)
    ensures Doomed(s)
    decreases if s.cleaners[c].CheckDone? then 2 else if s.cleaners[c].CheckNode? then 1 else 0
  {
    var e := CleanerStep(c);
    var s1 := Exec(s, e);
    if s.cleaners[c].Leave? {
      NextVisit(s1, c);
    } else if s1.cleaners[c].Cleaning? {
      ScanDestroys(s1, c);
    } else {
      WipedGoesOn(s1, c);
    }
    DoomedBefore(s, e);
  }

  /** Conversely, once a reset wipes a claim the threads can go on to a violation: so reuse is safe in all
      continuations only if the counter is 0 whenever it is reset. */
  lemma WipeDooms(s: State, e: Event)
    requires Inv(s) && Enabled(s, e) && Wipes(s, e)
    ensures Doomed(Exec(s, e))
  {
    assert |Holders(s)| > 0;
    var c :| c in Holders(s);
    var s1 := Exec(s, e);
    var s2 := Exec(s1, OwnerStep);
    WipedGoesOn(s2, c);
    DoomedBefore(s1, OwnerStep);
  }

  /** The owner pushes node 10, the cleaner sees it. */
  lemma NodeSeen()
    requires Doomed(State(10, false, 0, false, Idle, map[1 := Enter(10)], {10}))
    ensures Doomed(State(0, false, 0, true, Idle, map[1 := Away], {}))
  {
    var s0 := State(0, false, 0, true, Idle, map[1 := Away], {});
    var s1 := Exec(s0, Push(10));
    var s2 := Exec(s1, OwnerStep);
    var s3 := Exec(s2, OwnerStep);
    var s4 := Exec(s3, OwnerStep);
    var s5 := Exec(s4, CleanerStep(1));
    var s6 := Exec(s5, CleanerStep(1));
    assert s6 == State(10, false, 0, false, Idle, map[1 := Enter(10)], {10});
    DoomedBefore(s5, CleanerStep(1));
    DoomedBefore(s4, CleanerStep(1));
    DoomedBefore(s3, OwnerStep);
    DoomedBefore(s2, OwnerStep);
    DoomedBefore(s1, OwnerStep);
    DoomedBefore(s0, Push(10));
  }

  /** The owner's scan destroys node 10. */
  lemma NodeDestroyed()
    requires Doomed(State(0, true, 0, true, Idle, map[1 := Enter(10)], {}))
    ensures Doomed(State(10, false, 0, false, Idle, map[1 := Enter(10)], {10}))
  {
    var s0 := State(10, false, 0, false, Idle, map[1 := Enter(10)], {10});
    var s1 := Exec(s0, Scan);
    var s2 := Exec(s1, OwnerStep);
    var s3 := Exec(s2, OwnerStep);
    var s4 := Exec(s3, OwnerStep);
    var s5 := Exec(s4, OwnerStep);
    assert s5 == State(0, true, 0, true, Idle, map[1 := Enter(10)], {});
    DoomedBefore(s4, OwnerStep);
    DoomedBefore(s3, OwnerStep);
    DoomedBefore(s2, OwnerStep);
    DoomedBefore(s1, OwnerStep);
    DoomedBefore(s0, Scan);
  }

  /** The owner begins to push node 20 and finds the counter at 0, the cleaner claims the slot, and the push goes on
      and wipes the claim. */
  lemma ClaimWiped()
    ensures Doomed(State(0, true, 0, true, Idle, map[1 := Enter(10)], {}))
  {
    var s0 := State(0, true, 0, true, Idle, map[1 := Enter(10)], {});
    var s1 := Exec(s0, Push(20));
    var s2 := Exec(s1, CleanerStep(1));
    var s3 := Exec(s2, OwnerStep);
    assert s3 == State(0, false, 1, true, ResetClaim(20), map[1 := CheckDone(10)], {20});
    assert Holders(s3) == {1};
    WipeDooms(s3, OwnerStep);
    DoomedBefore(s3, OwnerStep);
    DoomedBefore(s2, OwnerStep);
    DoomedBefore(s1, CleanerStep(1));
    DoomedBefore(s0, Push(20));
  }

  /** A run of one owner and one cleaner in which this happens, from a free slot on, with every assertion of push
      satisfied: between the cleaner's two looks at the slot the first node is destroyed, and the cleaner claims the
      slot between the assertion and the reset of the counter. */
  lemma OneCleanerSuffices()
    ensures var s := State(0, false, 0, true, Idle, map[1 := Away], {});
            Init(s) && Doomed(s)
  {
    ClaimWiped();
    NodeDestroyed();
    NodeSeen();
  }

  // ---------------------------------------------------------------- calls end

  /** The steps that the owner's push or scan still takes, at most. */
  function OwnerSteps(pc: OwnerPc): nat {
    match pc
    case Idle => 0
    case ResetDone(_) => 3
    case ResetClaim(_) => 2
    case StoreNode(_) => 1
    case TakeDone(_) => 4
    case ReadClaim(_) => 3
    case Destroy(_) => 2
    case Pop => 1
    case ReleaseDone(_) => 2
    case RestoreNode(_) => 1
  }

  /** Those of a cleaner at this slot. */
  function CleanerSteps(pc: CleanerPc): nat {
    match pc
    case Away => 0
    case Seen(_) => 6
    case Enter(_) => 5
    case CheckDone(_) => 4
    case CheckNode(_) => 3
    case Cleaning(_) => 2
    case Leave => 1
  }

  /** Push and scan end after at most five steps of the owner, a cleaner's visit after at most six of its own, whatever
      the others do. */
  lemma CallsEnd(s: State, e: Event)
    requires Enabled(s, e)
    ensures var s' := Exec(s, e);
            && (e == OwnerStep ==> OwnerSteps(s'.owner) < OwnerSteps(s.owner))
            && (e.CleanerStep? ==> s'.owner == s.owner)
            && (forall c | c in s.cleaners :: c in s'.cleaners
                  && if e != CleanerStep(c) then s'.cleaners[c] == s.cleaners[c]
                     else s.cleaners[c] != Away ==> CleanerSteps(s'.cleaners[c]) < CleanerSteps(s.cleaners[c]))
  {
  }
}
