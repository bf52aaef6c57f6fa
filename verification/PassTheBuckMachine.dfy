/** The pass-the-buck protocol in every interleaving: guards post a pointer, look at its source again and move on,
    pointers are retired, and one thread at a time liberates, reading the guards one by one while the others go on. */
module PassTheBuckMachine {

  /** Addresses are numbers; 0 is NULL. */
  type Ptr = nat

  /** Where links are stored: in the structure's own variables, or in a node. */
  datatype Cell = Root(i: nat) | Next(node: Ptr)

  /** An allocated node: in use, or retired and then in the buffer, in the set to free, or trapped in a guard. Freed
      nodes are not in the map. */
  datatype Status = Live | InBuffer | InSet | Trapped(g: nat)

  /** Where the thread that uses a guard stands. */
  datatype GuardPc =
    | Ready
    | Loaded(cell: Cell, v: Ptr)   // pTarget = *pSrc
    | Stored(cell: Cell, v: Ptr)   // guard = pTarget

  /** post: the pointer posted; handOff: the pointer trapped; held: the posted pointer, once it was found linked when
      read again, and 0 otherwise. */
  datatype Guard = Guard(post: Ptr, handOff: Ptr, held: Ptr, pc: GuardPc)

  /** Where the liberating thread stands. n is the number of guards when its loop began, i that of those still to be
      examined, done the values that the others posted. */
  datatype Liberator =
    | Idle
    | Stolen                                           // the buffer's pointers are in the set
    | ReadPost(n: nat, i: nat, done: set<Ptr>)         // read guard i - 1
    | HandOff(n: nat, i: nat, val: Ptr, done: set<Ptr>) // it posts val
    | Freeing

  /** Guards are numbered in the order in which they were pushed on the list head, so that a traversal from the head
      goes down to 0. cells holds the links that are not marked as deleted. */
  datatype State = State(nodes: map<Ptr, Status>, cells: map<Cell, Ptr>, guards: seq<Guard>, pc: Liberator)
  {
    function Value(c: Cell): Ptr {
      if c in cells then cells[c] else 0
    }

    function With(g: nat, x: Guard): State
      requires g < |guards|
    {
      this.(guards := guards[g := x])
    }
  }

  datatype Event =
    | NewGuard                    // a new guard, pushed on the list head
    | Load(g: nat, cell: Cell)
    | Store(g: nat)
    | Recheck(g: nat)
    | Clear(g: nat)
    | Allocate(p: Ptr)
    | Link(cell: Cell, v: Ptr)    // any store or swap of a link: insert, mark, unlink
    | Retire(p: Ptr)
    | Steal                       // the buffer is taken
    | BeginLoop                   // the head of the list of guards is read
    | ReadGuard
    | Handle
    | EndLoop
    | Free(p: Ptr)
    | EndFree

  ghost predicate Enabled(s: State, e: Event) {
    match e
    case NewGuard => true
    case Load(g, cell) => g < |s.guards| && s.guards[g].pc == Ready
    case Store(g) => g < |s.guards| && s.guards[g].pc.Loaded?
    case Recheck(g) => g < |s.guards| && s.guards[g].pc.Stored?
    case Clear(g) => g < |s.guards| && s.guards[g].pc == Ready
    case Allocate(p) => p != 0 && p !in s.nodes
    case Link(cell, v) => v != 0 ==> v in s.nodes && s.nodes[v] == Live
    case Retire(p) =>
      p != 0 && p in s.nodes && s.nodes[p] == Live && forall c | c in s.cells :: s.cells[c] != p
    case Steal => s.pc == Idle
    case BeginLoop => s.pc == Stolen
    case ReadGuard => s.pc.ReadPost? && 0 < s.pc.i <= |s.guards|
    case Handle => s.pc.HandOff? && 0 < s.pc.i <= |s.guards|
    case EndLoop => s.pc.ReadPost? && s.pc.i == 0
    case Free(p) => s.pc == Freeing && p in s.nodes && s.nodes[p] == InSet
    case EndFree => s.pc == Freeing && forall p | p in s.nodes :: s.nodes[p] != InSet
  }

  ghost function DoStore(s: State, g: nat): State
    requires g < |s.guards| && s.guards[g].pc.Loaded?
  {
    var x := s.guards[g];
    s.With(g, x.(post := x.pc.v, held := 0, pc := Stored(x.pc.cell, x.pc.v)))
  }

  ghost function DoRecheck(s: State, g: nat): State
    requires g < |s.guards| && s.guards[g].pc.Stored?
  {
    var x := s.guards[g];
    s.With(g, x.(held := if s.Value(x.pc.cell) == x.pc.v then x.pc.v else 0, pc := Ready))
  }

  ghost function DoSteal(s: State): State {
    s.(nodes := map p | p in s.nodes :: if s.nodes[p] == InBuffer then InSet else s.nodes[p], pc := Stolen)
  }

  /** Guard g posts val, which is in the set: it traps val and gives up h, the pointer it trapped before. */
  ghost function Trap(s: State, g: nat, val: Ptr, h: Ptr, done: set<Ptr>): State
    requires g < |s.guards|
  {
    var nodes := s.nodes[val := Trapped(g)];
    s.(nodes := if h == 0 then nodes else nodes[h := if h !in done then InSet else InBuffer])
     .With(g, s.guards[g].(handOff := val))
  }

  /** The trapped pointer h of guard g returns to the set. */
  ghost function Untrap(s: State, g: nat, h: Ptr): State
    requires g < |s.guards|
  {
    s.(nodes := s.nodes[h := InSet]).With(g, s.guards[g].(handOff := 0))
  }

  /** Guard g was found to post val. */
  ghost function HandOver(s: State, g: nat, val: Ptr, done: set<Ptr>): State
    requires g < |s.guards|
  {
    var h := s.guards[g].handOff;
    if val != 0 && val in s.nodes && s.nodes[val] == InSet then Trap(s, g, val, h, done)
    else if h != 0 && val != h && h !in done then Untrap(s, g, h)
    else s
  }

  ghost function DoHandle(s: State): State
    requires s.pc.HandOff? && 0 < s.pc.i <= |s.guards|
  {
    var g, val, done := s.pc.i - 1, s.pc.val, s.pc.done;
    HandOver(s, g, val, done).(pc := ReadPost(s.pc.n, g, if val != 0 then done + {val} else done))
  }

  ghost function Exec(s: State, e: Event): State
    requires Enabled(s, e)
  {
    match e
    case NewGuard => s.(guards := s.guards + [Guard(0, 0, 0, Ready)])
    case Load(g, cell) => s.With(g, s.guards[g].(pc := Loaded(cell, s.Value(cell))))
    case Store(g) => DoStore(s, g)
    case Recheck(g) => DoRecheck(s, g)
    case Clear(g) => s.With(g, s.guards[g].(post := 0, held := 0))
    case Allocate(p) => s.(nodes := s.nodes[p := Live], cells := s.cells[Next(p) := 0])
    case Link(cell, v) => s.(cells := s.cells[cell := v])
    case Retire(p) => s.(nodes := s.nodes[p := InBuffer])
    case Steal => DoSteal(s)
    case BeginLoop => s.(pc := ReadPost(|s.guards|, |s.guards|, {}))
    case ReadGuard => s.(pc := HandOff(s.pc.n, s.pc.i, s.guards[s.pc.i - 1].post, s.pc.done))
    case Handle => DoHandle(s)
    case EndLoop => s.(pc := Freeing)
    case Free(p) => s.(nodes := s.nodes - {p}, cells := s.cells - {Next(p)})
    case EndFree => s.(pc := Idle)
  }

  ghost predicate Init(s: State) {
    s.nodes == map[] && s.guards == [] && s.pc == Idle && forall c | c in s.cells :: s.cells[c] == 0
  }

  // ---------------------------------------------------------------- the invariant

  /** Guard g protects p: p was found linked after it had been posted there. */
  ghost predicate Held(s: State, g: nat, p: Ptr) {
    g < |s.guards| && p != 0 && s.guards[g].held == p
  }

  /** Links lead to nodes in use. */
  ghost predicate LinksOk(s: State) {
    forall c | c in s.cells && s.cells[c] != 0 :: s.cells[c] in s.nodes && s.nodes[s.cells[c]] == Live
  }

  /** A protected pointer is posted and allocated; what was just posted protects nothing yet. */
  ghost predicate HeldOk(s: State) {
    && (forall g: nat, p {:trigger Held(s, g, p)} | Held(s, g, p) :: s.guards[g].post == p && p in s.nodes)
    && (forall g | 0 <= g < |s.guards| && s.guards[g].pc.Stored? ::
          s.guards[g].post == s.guards[g].pc.v && s.guards[g].held == 0)
  }

  /** A guard's hand-off slot and the status of the pointer trapped there agree. */
  ghost predicate TrapsOk(s: State) {
    && (forall g | 0 <= g < |s.guards| && s.guards[g].handOff != 0 ::
          s.guards[g].handOff in s.nodes && s.nodes[s.guards[g].handOff] == Trapped(g))
    && (forall p | p in s.nodes && s.nodes[p].Trapped? ::
          s.nodes[p].g < |s.guards| && s.guards[s.nodes[p].g].handOff == p)
    && 0 !in s.nodes
  }

  /** Who may protect p, and in which guard: the loop has i of its n guards still to examine, the others posted done.
      A pointer in the set is protected by unexamined guards only; one trapped in an unexamined guard also may be
      protected by examined ones, but then it is in done. */
  ghost predicate Awaits(s: State, n: nat, i: nat, done: set<Ptr>, g: nat, p: Ptr)
    requires p in s.nodes
  {
    match s.nodes[p]
    case InSet => g < i
    case Trapped(j) => g < n && (i <= g && j < i ==> p in done)
    case _ => true
  }

  ghost predicate LoopOk(s: State) {
    match s.pc
    case ReadPost(n, i, done) =>
      i <= n <= |s.guards|
      && forall g: nat, p {:trigger Held(s, g, p)} | Held(s, g, p) && p in s.nodes :: Awaits(s, n, i, done, g, p)
    case HandOff(n, i, val, done) =>
      0 < i <= n <= |s.guards|
      && (forall g: nat, p {:trigger Held(s, g, p)} | Held(s, g, p) && p in s.nodes :: Awaits(s, n, i, done, g, p))
      && (forall g: nat, p {:trigger Held(s, g, p)} | Held(s, g, p) && g == i - 1 && p in s.nodes
            && s.nodes[p] != Live && s.nodes[p] != InBuffer :: p == val)
    case Freeing => forall g: nat, p {:trigger Held(s, g, p)} | Held(s, g, p) && p in s.nodes :: s.nodes[p] != InSet
    case _ => true
  }

  ghost predicate Inv(s: State) {
    LinksOk(s) && HeldOk(s) && TrapsOk(s) && LoopOk(s)
  }

  // ---------------------------------------------------------------- steps of the users

  /** Guard g changes without protecting anything new. */
  ghost predicate Loosens(s: State, s': State, g: nat) {
    && g < |s.guards| == |s'.guards| && s' == s.(guards := s.guards[g := s'.guards[g]])
    && s'.guards[g].handOff == s.guards[g].handOff
    && (s'.guards[g].held == 0 || (s'.guards[g].held == s.guards[g].held && s'.guards[g].post == s.guards[g].post))
    && (s'.guards[g].pc.Stored? ==> s'.guards[g].post == s'.guards[g].pc.v && s'.guards[g].held == 0)
  }

  lemma LoosensHeld(s: State, s': State, g: nat)
    requires Loosens(s, s', g)
    ensures forall k: nat, p {:trigger Held(s', k, p)} | Held(s', k, p) :: Held(s, k, p)
  {
  }

  lemma LoosensKeepsLoop(s: State, s': State, g: nat)
    requires LoopOk(s) && Loosens(s, s', g)
    ensures LoopOk(s')
  {
    LoosensHeld(s, s', g);
  }

  lemma LoosensKeeps(s: State, s': State, g: nat)
    requires Inv(s) && Loosens(s, s', g)
    ensures Inv(s')
  {
    LoosensHeld(s, s', g);
    LoosensKeepsLoop(s, s', g);
  }

  /** What a second look finds linked is in use. */
  lemma RecheckHolds(s: State, g: nat)
    requires LinksOk(s) && g < |s.guards| && s.guards[g].pc.Stored?
    ensures forall k: nat, p {:trigger Held(DoRecheck(s, g), k, p)} | Held(DoRecheck(s, g), k, p) ::
              (k != g && Held(s, k, p))
              || (k == g && p == s.guards[g].pc.v && p in s.nodes && s.nodes[p] == Live)
  {
  }

  lemma RecheckKeepsLoop(s: State, g: nat)
    requires LoopOk(s) && LinksOk(s) && g < |s.guards| && s.guards[g].pc.Stored?
    ensures LoopOk(DoRecheck(s, g))
  {
    RecheckHolds(s, g);
  }

  lemma RecheckKeeps(s: State, g: nat)
    requires Inv(s) && Enabled(s, Recheck(g))
    ensures Inv(DoRecheck(s, g))
  {
    RecheckHolds(s, g);
    RecheckKeepsLoop(s, g);
  }

  lemma NewGuardKeeps(s: State)
    requires Inv(s)
    ensures Inv(Exec(s, NewGuard))
  {
    var s' := Exec(s, NewGuard);
    forall g: nat, p | Held(s', g, p) ensures Held(s, g, p) {
    }
  }

  // ---------------------------------------------------------------- steps that change nodes

  lemma AllocateKeeps(s: State, p: Ptr)
    requires Inv(s) && Enabled(s, Allocate(p))
    ensures Inv(Exec(s, Allocate(p)))
  {
    var s' := Exec(s, Allocate(p));
    forall g: nat, q | Held(s', g, q) ensures Held(s, g, q) && q != p {
      assert Held(s, g, q);
    }
  }

  lemma LinkKeeps(s: State, cell: Cell, v: Ptr)
    requires Inv(s) && Enabled(s, Link(cell, v))
    ensures Inv(Exec(s, Link(cell, v)))
  {
    var s' := Exec(s, Link(cell, v));
    forall g: nat, q | Held(s', g, q) ensures Held(s, g, q) {
    }
  }

  lemma RetireKeeps(s: State, p: Ptr)
    requires Inv(s) && Enabled(s, Event.Retire(p))
    ensures Inv(Exec(s, Event.Retire(p)))
  {
    var s' := Exec(s, Event.Retire(p));
    forall g: nat, q | Held(s', g, q) ensures Held(s, g, q) {
    }
  }

  // ---------------------------------------------------------------- steps of the liberator

  lemma StealKeeps(s: State)
    requires Inv(s) && Enabled(s, Steal)
    ensures Inv(DoSteal(s))
  {
    var s' := DoSteal(s);
    forall g: nat, q | Held(s', g, q) ensures Held(s, g, q) {
    }
  }

  /** Only the liberator's own progress changes. */
  lemma MoveKeeps(s: State, s': State)
    requires Inv(s) && s' == s.(pc := s'.pc) && LoopOk(s')
    ensures Inv(s')
  {
    forall g: nat, q | Held(s', g, q) ensures Held(s, g, q) {
    }
  }

  lemma BeginLoopKeeps(s: State)
    requires Inv(s) && Enabled(s, BeginLoop)
    ensures Inv(Exec(s, BeginLoop))
  {
    MoveKeeps(s, Exec(s, BeginLoop));
  }

  lemma ReadGuardKeeps(s: State)
    requires Inv(s) && Enabled(s, ReadGuard)
    ensures Inv(Exec(s, ReadGuard))
  {
    var s' := Exec(s, ReadGuard);
    forall g: nat, q | Held(s', g, q) ensures Held(s, g, q) {
    }
    MoveKeeps(s, s');
  }

  lemma EndLoopKeeps(s: State)
    requires Inv(s) && Enabled(s, EndLoop)
    ensures Inv(Exec(s, EndLoop))
  {
    var s' := Exec(s, EndLoop);
    forall g: nat, q | Held(s', g, q) ensures Held(s, g, q) {
    }
    MoveKeeps(s, s');
  }

  /** Trapping and untrapping move retired pointers only. */
  lemma HandleLists(s: State)
    requires Inv(s) && Enabled(s, Handle)
    ensures LinksOk(DoHandle(s)) && HeldOk(DoHandle(s))
  {
    var s' := DoHandle(s);
    forall g: nat, q | Held(s', g, q) ensures Held(s, g, q) {
    }
  }

  lemma TrapKeepsTraps(s: State, g: nat, val: Ptr, done: set<Ptr>)
    requires TrapsOk(s) && g < |s.guards| && val in s.nodes && s.nodes[val] == InSet
    ensures TrapsOk(Trap(s, g, val, s.guards[g].handOff, done))
  {
    var h, s' := s.guards[g].handOff, Trap(s, g, val, s.guards[g].handOff, done);
    assert h != val;
    forall p | p in s'.nodes && s'.nodes[p].Trapped?
      ensures s'.nodes[p].g < |s'.guards| && s'.guards[s'.nodes[p].g].handOff == p
    {
      if p != val {
        assert p != h && s'.nodes[p] == s.nodes[p];
      }
    }
  }

  lemma UntrapKeepsTraps(s: State, g: nat)
    requires TrapsOk(s) && g < |s.guards| && s.guards[g].handOff != 0
    ensures TrapsOk(Untrap(s, g, s.guards[g].handOff))
  {
  }

  lemma HandOverKeepsTraps(s: State, g: nat, val: Ptr, done: set<Ptr>)
    requires TrapsOk(s) && g < |s.guards|
    ensures TrapsOk(HandOver(s, g, val, done))
  {
    if val != 0 && val in s.nodes && s.nodes[val] == InSet {
      TrapKeepsTraps(s, g, val, done);
    } else if s.guards[g].handOff != 0 {
      UntrapKeepsTraps(s, g);
    }
  }

  lemma SameTraps(s: State, s': State)
    requires TrapsOk(s) && s'.nodes == s.nodes && s'.guards == s.guards
    ensures TrapsOk(s')
  {
  }

  lemma HandleTraps(s: State)
    requires TrapsOk(s) && Enabled(s, Handle)
    ensures TrapsOk(DoHandle(s))
  {
    HandOverKeepsTraps(s, s.pc.i - 1, s.pc.val, s.pc.done);
    SameTraps(HandOver(s, s.pc.i - 1, s.pc.val, s.pc.done), DoHandle(s));
  }

  lemma TrapKeepsLoop(s: State, s': State)
    requires Inv(s) && s.pc.HandOff? && s' == DoHandle(s)
    requires s.pc.val != 0 && s.pc.val in s.nodes && s.nodes[s.pc.val] == InSet
    ensures LoopOk(s')
  {
    forall g: nat, q | Held(s', g, q) && q in s'.nodes
      ensures Awaits(s', s.pc.n, s.pc.i - 1, s.pc.done + {s.pc.val}, g, q)
    {
      assert Held(s, g, q);
    }
  }

  lemma UntrapKeepsLoop(s: State, s': State)
    requires Inv(s) && s.pc.HandOff? && s' == DoHandle(s)
    requires !(s.pc.val != 0 && s.pc.val in s.nodes && s.nodes[s.pc.val] == InSet)
    ensures LoopOk(s')
  {
    var done' := if s.pc.val != 0 then s.pc.done + {s.pc.val} else s.pc.done;
    forall g: nat, q | Held(s', g, q) && q in s'.nodes
      ensures Awaits(s', s.pc.n, s.pc.i - 1, done', g, q)
    {
      assert Held(s, g, q);
    }
  }

  lemma HandleKeeps(s: State)
    requires Inv(s) && Enabled(s, Handle)
    ensures Inv(DoHandle(s))
  {
    HandleLists(s);
    HandleTraps(s);
    if s.pc.val != 0 && s.pc.val in s.nodes && s.nodes[s.pc.val] == InSet {
      TrapKeepsLoop(s, DoHandle(s));
    } else {
      UntrapKeepsLoop(s, DoHandle(s));
    }
  }

  /** A pointer that is about to be freed is protected by no guard. */
  lemma FreesUnprotected(s: State, p: Ptr)
    requires Inv(s) && Enabled(s, Free(p))
    ensures forall g: nat :: !Held(s, g, p)
  {
  }

  lemma FreeKeeps(s: State, p: Ptr)
    requires Inv(s) && Enabled(s, Free(p))
    ensures Inv(Exec(s, Free(p)))
  {
    var s' := Exec(s, Free(p));
    FreesUnprotected(s, p);
    forall g: nat, q | Held(s', g, q) ensures Held(s, g, q) && q != p {
      assert Held(s, g, q);
    }
  }

  lemma StepKeepsInv(s: State, e: Event)
    requires Inv(s) && Enabled(s, e)
    ensures Inv(Exec(s, e))
  {
    match e
    case NewGuard => NewGuardKeeps(s);
    case Load(g, _) => LoosensKeeps(s, Exec(s, e), g);
    case Store(g) => LoosensKeeps(s, Exec(s, e), g);
    case Recheck(g) => RecheckKeeps(s, g);
    case Clear(g) => LoosensKeeps(s, Exec(s, e), g);
    case Allocate(p) => AllocateKeeps(s, p);
    case Link(cell, v) => LinkKeeps(s, cell, v);
    case Retire(p) => RetireKeeps(s, p);
    case Steal => StealKeeps(s);
    case BeginLoop => BeginLoopKeeps(s);
    case ReadGuard => ReadGuardKeeps(s);
    case Handle => HandleKeeps(s);
    case EndLoop => EndLoopKeeps(s);
    case Free(p) => FreeKeeps(s, p);
    case EndFree => MoveKeeps(s, Exec(s, EndFree));
  }

  // ---------------------------------------------------------------- runs

  ghost predicate Run(run: seq<State>, events: seq<Event>) {
    && |run| == |events| + 1 && Init(run[0])
    && forall i {:trigger events[i]} | 0 <= i < |events| ::
         Enabled(run[i], events[i]) && run[i + 1] == Exec(run[i], events[i])
  }

  lemma {:induction false} RunKeepsInv(run: seq<State>, events: seq<Event>, j: nat)
    requires Run(run, events) && j < |run|
    ensures Inv(run[j])
  {
    if j > 0 {
      RunKeepsInv(run, events, j - 1);
      assert run[j - 1 + 1] == Exec(run[j - 1], events[j - 1]);
      StepKeepsInv(run[j - 1], events[j - 1]);
    }
  }

  /** The user of guard g posts p there and then finds its source still leading to p. */
  ghost predicate FindsLinked(s: State, e: Event, g: nat, p: Ptr) {
    && e == Recheck(g) && g < |s.guards| && p != 0
    && exists cell :: s.guards[g].pc == Stored(cell, p) && s.Value(cell) == p
  }

  /** The guard is cleared, or posts another pointer. */
  ghost predicate MovesOn(e: Event, g: nat) {
    e == Clear(g) || e == Store(g)
  }

  lemma RecheckProtects(s: State, g: nat, p: Ptr)
    requires Enabled(s, Recheck(g)) && FindsLinked(s, Recheck(g), g, p)
    ensures Held(Exec(s, Recheck(g)), g, p)
  {
  }

  lemma HandleKeepsHeld(s: State, g: nat, p: Ptr)
    requires Enabled(s, Handle) && Held(s, g, p)
    ensures Held(DoHandle(s), g, p)
  {
  }

  /** Only moving on ends it. */
  lemma ProtectionPersists(s: State, e: Event, g: nat, p: Ptr)
    requires HeldOk(s) && Enabled(s, e) && Held(s, g, p) && !MovesOn(e, g)
    ensures Held(Exec(s, e), g, p)
  {
    if e == Handle {
      HandleKeepsHeld(s, g, p);
    }
  }

  /** From the moment when a posted pointer is found still linked, until its guard moves on, the node is never freed,
      whoever retires it, however often liberate runs, through whatever guards it is handed on, and whatever guards are
      added. */
  lemma {:induction false} PostedStaysAllocated(run: seq<State>, events: seq<Event>, i: nat, j: nat, g: nat, p: Ptr)
    requires Run(run, events) && i < j < |run| && FindsLinked(run[i], events[i], g, p)
    requires forall l {:trigger events[l]} | i < l < j :: !MovesOn(events[l], g)
    ensures Held(run[j], g, p) && p in run[j].nodes
  {
    RunKeepsInv(run, events, j - 1);
    assert run[j - 1 + 1] == Exec(run[j - 1], events[j - 1]);
    if j == i + 1 {
      RecheckProtects(run[i], g, p);
    } else {
      PostedStaysAllocated(run, events, i, j - 1, g, p);
      ProtectionPersists(run[j - 1], events[j - 1], g, p);
    }
    RunKeepsInv(run, events, j);
  }

  // ---------------------------------------------------------------- what a guard obtains

  /** Between the load and the second look: v is the target. */
  predicate Targets(x: Guard, cell: Cell, v: Ptr) {
    x.pc == Loaded(cell, v) || x.pc == Stored(cell, v)
  }

  lemma TargetStays(s: State, e: Event, g: nat, cell: Cell, v: Ptr)
    requires Enabled(s, e) && g < |s.guards| && Targets(s.guards[g], cell, v) && e != Recheck(g)
    ensures var s' := Exec(s, e); g < |s'.guards| && Targets(s'.guards[g], cell, v)
  {
  }

  /** What is posted and looked at again is what the cell held at the load. */
  lemma {:induction false} TargetLoaded(run: seq<State>, events: seq<Event>, i: nat, j: nat, g: nat, cell: Cell)
    requires Run(run, events) && i < j < |run| && events[i] == Load(g, cell)
    requires forall l {:trigger events[l]} | i < l < j :: events[l] != Recheck(g)
    ensures g < |run[j].guards| && Targets(run[j].guards[g], cell, run[i].Value(cell))
  {
    assert run[j - 1 + 1] == Exec(run[j - 1], events[j - 1]);
    if i + 1 < j {
      TargetLoaded(run, events, i, j - 1, g, cell);
      TargetStays(run[j - 1], events[j - 1], g, cell, run[i].Value(cell));
    }
  }

  /** The guard posts what the cell held at the load, and protects it exactly when that is no NULL and the cell still
      holds it at the second look. */
  lemma GetAndGuard(run: seq<State>, events: seq<Event>, i: nat, j: nat, g: nat, cell: Cell)
    requires Run(run, events) && i < j < |events| && events[i] == Load(g, cell) && events[j] == Recheck(g)
    requires forall l {:trigger events[l]} | i < l < j :: events[l] != Recheck(g)
    ensures var v := run[i].Value(cell);
            && g < |run[j + 1].guards| && run[j + 1].guards[g].post == v
            && (Held(run[j + 1], g, v) <==> v != 0 && run[j].Value(cell) == v)
  {
    TargetLoaded(run, events, i, j, g, cell);
    RunKeepsInv(run, events, j);
    assert run[j + 1] == Exec(run[j], events[j]);
    assert Exec(run[j], events[j]) == DoRecheck(run[j], g);
  }

  // ---------------------------------------------------------------- what liberate frees

  /** Some guard posts p. */
  ghost predicate Posts(s: State, p: Ptr) {
    exists g :: 0 <= g < |s.guards| && s.guards[g].post == p
  }

  /** The loop over the guards began by event i and is still under way. */
  ghost predicate InLoop(run: seq<State>, events: seq<Event>, i: nat, j: nat) {
    && i < j < |run| == |events| + 1 && events[i] == BeginLoop
    && forall l {:trigger run[l]} | i < l <= j :: run[l].pc.ReadPost? || run[l].pc.HandOff?
  }

  function Done(pc: Liberator): set<Ptr> {
    match pc
    case ReadPost(_, _, done) => done
    case HandOff(_, _, _, done) => done
    case _ => {}
  }

  /** The loop is bound to free p: p is in the set, or trapped in a guard that is still to be examined, and no examined
      guard posted it. */
  ghost predicate Unwanted(s: State, p: Ptr) {
    && p in s.nodes && p !in Done(s.pc)
    && match s.pc
       case ReadPost(_, i, _) => s.nodes[p] == InSet || (s.nodes[p].Trapped? && s.nodes[p].g < i)
       case HandOff(_, i, val, _) => (s.nodes[p] == InSet || (s.nodes[p].Trapped? && s.nodes[p].g < i)) && val != p
       case _ => false
  }

  lemma HandleKeepsUnwanted(s: State, p: Ptr)
    requires TrapsOk(s) && Enabled(s, Handle) && Unwanted(s, p)
    ensures Unwanted(DoHandle(s), p)
  {
  }

  /** As long as no guard posts p. */
  lemma StaysUnwanted(s: State, e: Event, p: Ptr)
    requires TrapsOk(s) && Enabled(s, e) && Unwanted(s, p) && !Posts(s, p) && e != EndLoop
    ensures Unwanted(Exec(s, e), p)
  {
    if e == Handle {
      HandleKeepsUnwanted(s, p);
    }
  }

  lemma {:induction false} UnwantedSoFar(run: seq<State>, events: seq<Event>, i: nat, j: nat, p: Ptr)
    requires Run(run, events) && InLoop(run, events, i, j)
    requires p in run[i].nodes && (run[i].nodes[p] == InSet || run[i].nodes[p].Trapped?)
    requires forall l {:trigger run[l]} | i <= l < j :: !Posts(run[l], p)
    ensures Unwanted(run[j], p)
  {
    assert run[j - 1 + 1] == Exec(run[j - 1], events[j - 1]);
    RunKeepsInv(run, events, j - 1);
    if i + 1 < j {
      assert run[j - 1].pc.ReadPost? || run[j - 1].pc.HandOff?;
      UnwantedSoFar(run, events, i, j - 1, p);
      StaysUnwanted(run[j - 1], events[j - 1], p);
    }
  }

  /** The other half of safety: a pointer that waits to be freed, in the set or in a hand-off slot, and that no guard
      posts while liberate examines the guards, is in the set when the loop ends, and will be freed. */
  lemma UnpostedIsFreed(run: seq<State>, events: seq<Event>, i: nat, j: nat, p: Ptr)
    requires Run(run, events) && InLoop(run, events, i, j) && j < |events| && events[j] == EndLoop
    requires p in run[i].nodes && (run[i].nodes[p] == InSet || run[i].nodes[p].Trapped?)
    requires forall l {:trigger run[l]} | i <= l < j :: !Posts(run[l], p)
    ensures run[j + 1].pc == Freeing && p in run[j + 1].nodes && run[j + 1].nodes[p] == InSet
  {
    UnwantedSoFar(run, events, i, j, p);
    assert run[j + 1] == Exec(run[j], events[j]);
  }

  /** Liberating starts with everything in the buffer, and ends with nothing in the set. */
  lemma TakesAllFreesAll(run: seq<State>, events: seq<Event>, j: nat, p: Ptr)
    requires Run(run, events) && j < |events| && p in run[j].nodes
    ensures events[j] == Steal && run[j].nodes[p] == InBuffer ==>
              p in run[j + 1].nodes && run[j + 1].nodes[p] == InSet
    ensures events[j] == EndFree ==> run[j].nodes[p] != InSet
  {
    assert run[j + 1] == Exec(run[j], events[j]);
  }

  // ---------------------------------------------------------------- calls end

  ghost function ToFree(s: State): set<Ptr> {
    set p | p in s.nodes && s.nodes[p] == InSet
  }

  /** The phase of liberate, and in it the steps left. */
  datatype Rank = Rank(phase: nat, left: nat)

  ghost predicate Below(a: Rank, b: Rank) {
    a.phase < b.phase || (a.phase == b.phase && a.left < b.left)
  }

  ghost function RankOf(s: State): Rank {
    match s.pc
    case Idle => Rank(0, 0)
    case Stolen => Rank(3, 0)
    case ReadPost(_, i, _) => Rank(2, 2 * i)
    case HandOff(_, i, _, _) => Rank(2, if i == 0 then 0 else 2 * i - 1)
    case Freeing => Rank(1, |ToFree(s)|)
  }

  /** The steps of the thread that liberates. */
  predicate Goes(e: Event) {
    e.BeginLoop? || e.ReadGuard? || e.Handle? || e.EndLoop? || e.Free? || e.EndFree?
  }

  lemma FreeNearer(s: State, p: Ptr)
    requires Enabled(s, Free(p))
    ensures Below(RankOf(Exec(s, Free(p))), RankOf(s))
  {
    assert ToFree(Exec(s, Free(p))) == ToFree(s) - {p};
    assert p in ToFree(s);
  }

  lemma StepNearer(s: State, e: Event)
    requires Enabled(s, e) && Goes(e)
    ensures Below(RankOf(Exec(s, e)), RankOf(s))
  {
    match e
    case Free(p) => FreeNearer(s, p);
    case _ =>
  }

  lemma OthersKeepRank(s: State, e: Event)
    requires Enabled(s, e) && !Goes(e) && s.pc != Idle
    ensures RankOf(Exec(s, e)) == RankOf(s)
  {
    if s.pc == Freeing {
      assert ToFree(Exec(s, e)) == ToFree(s);
    }
  }

  lemma NextStep(s: State) returns (e: Event)
    requires LoopOk(s) && s.pc != Idle
    ensures Goes(e) && Enabled(s, e)
  {
    match s.pc
    case Stolen => e := BeginLoop;
    case ReadPost(_, i, _) => e := if i > 0 then ReadGuard else EndLoop;
    case HandOff(_, _, _, _) => e := Handle;
    case Freeing =>
      if ToFree(s) == {} {
        assert forall p | p in s.nodes :: s.nodes[p] != InSet by {
          forall p | p in s.nodes ensures s.nodes[p] != InSet {
            assert p !in ToFree(s);
          }
        }
        e := EndFree;
      } else {
        var p :| p in ToFree(s);
        e := Free(p);
      }
  }

  /** In every run liberate comes to an end: until then it has a step to take, which brings it nearer, and nobody sets
      it back, whatever guards are made or post, and whatever is retired meanwhile. */
  lemma LiberateEnds(run: seq<State>, events: seq<Event>, j: nat) returns (e: Event)
    requires Run(run, events) && j < |events| && run[j].pc != Idle
    ensures Goes(e) && Enabled(run[j], e)
    ensures if Goes(events[j]) then Below(RankOf(run[j + 1]), RankOf(run[j])) else RankOf(run[j + 1]) == RankOf(run[j])
  {
    RunKeepsInv(run, events, j);
    e := NextStep(run[j]);
    assert run[j + 1] == Exec(run[j], events[j]);
    if Goes(events[j]) {
      StepNearer(run[j], events[j]);
    } else {
      OthersKeepRank(run[j], events[j]);
    }
  }
}
