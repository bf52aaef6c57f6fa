/** The hazard pointer protocol in every interleaving: readers publish a pointer and read its source
    again, writers retire what they have unlinked, scanners read one slot at a time while others go on. */
module HazardMachine {

  /** Addresses are numbers; 0 is NULL. */
  type Ptr = nat

  /** Where links are stored: in the structure's own variables, or in a node. */
  datatype Cell = Root(i: nat) | Next(node: Ptr)

  /** An allocated node: in use, or retired by a thread. Freed nodes are not in the map. */
  datatype Status = Live | Retired(owner: nat)

  datatype Pc =
    | Ready
    | Loaded(cell: Cell, k: nat, v: Ptr)          // pTarget = *pSrc
    | Stored(cell: Cell, k: nat, v: Ptr)          // hp = pTarget
    | Scanning(n: nat, k: nat, plist: set<Ptr>)   // next slot: k of record n - 1
    | Freeing(todo: set<Ptr>, plist: set<Ptr>)    // the scan's second stage

  /** A thread's record. held maps the slots whose pointer was found linked when read again. */
  datatype Rec = Rec(slots: seq<Ptr>, held: map<nat, Ptr>, retired: set<Ptr>, pc: Pc)

  /** Records are numbered in the order in which they were pushed on the list head, so that a traversal
      from the head goes down to 0. cells holds the links that are not marked as deleted. */
  datatype State = State(nodes: map<Ptr, Status>, cells: map<Cell, Ptr>, recs: seq<Rec>)
  {
    function Value(c: Cell): Ptr {
      if c in cells then cells[c] else 0
    }

    function Set(t: nat, r: Rec): State
      requires t < |recs|
    {
      this.(recs := recs[t := r])
    }
  }

  datatype Event =
    | Join                        // a new record, pushed on the list head
    | Load(t: nat, cell: Cell, k: nat)
    | Store(t: nat)
    | Recheck(t: nat)
    | Clear(t: nat, k: nat)
    | Allocate(p: Ptr)
    | Link(cell: Cell, v: Ptr)    // any store or swap of a link: insert, mark, unlink
    | Retire(t: nat, p: Ptr)
    | BeginScan(t: nat)
    | ReadSlot(t: nat)
    | EndRead(t: nat)
    | Decide(t: nat, p: Ptr)      // keep or free one retired pointer
    | EndScan(t: nat)
    | Inherit(t: nat, u: nat, p: Ptr)

  /** The source of a guarded read is a variable of the structure or a node that the thread guards
      by another slot. */
  ghost predicate MayRead(r: Rec, cell: Cell, k: nat) {
    cell.Next? ==> exists j :: j in r.held && j != k && r.held[j] == cell.node
  }

  /** What the protocol asks: slots exist; a link leads to a node in use, and is stored in one; a node is
      retired when no link leads to it and its own link is dead, by a thread that is not scanning. */
  ghost predicate Enabled(h: nat, s: State, e: Event) {
    match e
    case Join => true
    case Load(t, cell, k) => t < |s.recs| && s.recs[t].pc == Ready && k < h && MayRead(s.recs[t], cell, k)
    case Store(t) => t < |s.recs| && s.recs[t].pc.Loaded?
    case Recheck(t) => t < |s.recs| && s.recs[t].pc.Stored?
    case Clear(t, k) => t < |s.recs| && s.recs[t].pc == Ready && k < h
    case Allocate(p) => p != 0 && p !in s.nodes
    case Link(cell, v) =>
      && (v != 0 ==> v in s.nodes && s.nodes[v] == Live)
      && (cell.Next? ==> cell.node in s.nodes && s.nodes[cell.node] == Live)
    case Retire(t, p) =>
      && t < |s.recs| && s.recs[t].pc == Ready
      && p in s.nodes && s.nodes[p] == Live && s.Value(Next(p)) == 0
      && forall c | c in s.cells :: s.cells[c] != p
    case BeginScan(t) => t < |s.recs| && s.recs[t].pc == Ready
    case ReadSlot(t) => t < |s.recs| && s.recs[t].pc.Scanning? && s.recs[t].pc.n > 0
    case EndRead(t) => t < |s.recs| && s.recs[t].pc.Scanning? && s.recs[t].pc.n == 0
    case Decide(t, p) => t < |s.recs| && s.recs[t].pc.Freeing? && p in s.recs[t].pc.todo
    case EndScan(t) => t < |s.recs| && s.recs[t].pc.Freeing? && s.recs[t].pc.todo == {}
    case Inherit(t, u, p) =>
      && t < |s.recs| && u < |s.recs| && t != u && s.recs[t].pc == Ready && s.recs[u].pc == Ready
      && p in s.recs[u].retired
  }

  function Without(m: map<nat, Ptr>, k: nat): map<nat, Ptr> {
    map j | j in m && j != k :: m[j]
  }

  ghost function DoStore(s: State, t: nat): State
    requires t < |s.recs| && s.recs[t].pc.Loaded? && s.recs[t].pc.k < |s.recs[t].slots|
  {
    var r := s.recs[t];
    s.Set(t, r.(slots := r.slots[r.pc.k := r.pc.v], held := Without(r.held, r.pc.k),
                pc := Stored(r.pc.cell, r.pc.k, r.pc.v)))
  }

  ghost function DoRecheck(s: State, t: nat): State
    requires t < |s.recs| && s.recs[t].pc.Stored?
  {
    var r := s.recs[t];
    if r.pc.v != 0 && s.Value(r.pc.cell) == r.pc.v then
      s.Set(t, r.(held := r.held[r.pc.k := r.pc.v], pc := Ready))
    else
      s.Set(t, r.(pc := Ready))
  }

  ghost function DoClear(s: State, t: nat, k: nat): State
    requires t < |s.recs| && k < |s.recs[t].slots|
  {
    var r := s.recs[t];
    s.Set(t, r.(slots := r.slots[k := 0], held := Without(r.held, k)))
  }

  ghost function DoRetire(s: State, t: nat, p: Ptr): State
    requires t < |s.recs|
  {
    s.(nodes := s.nodes[p := Retired(t)]).Set(t, s.recs[t].(retired := s.recs[t].retired + {p}))
  }

  ghost function DoReadSlot(h: nat, s: State, t: nat): State
    requires t < |s.recs| && s.recs[t].pc.Scanning? && 0 < s.recs[t].pc.n <= |s.recs|
    requires s.recs[t].pc.k < h ==> s.recs[t].pc.k < |s.recs[s.recs[t].pc.n - 1].slots|
  {
    var pc := s.recs[t].pc;
    if pc.k < h then
      var hptr := s.recs[pc.n - 1].slots[pc.k];
      s.Set(t, s.recs[t].(pc := Scanning(pc.n, pc.k + 1, if hptr != 0 then pc.plist + {hptr} else pc.plist)))
    else
      s.Set(t, s.recs[t].(pc := Scanning(pc.n - 1, 0, pc.plist)))
  }

  ghost function DoDecide(s: State, t: nat, p: Ptr): State
    requires t < |s.recs| && s.recs[t].pc.Freeing?
  {
    var r := s.recs[t];
    var pc' := Freeing(r.pc.todo - {p}, r.pc.plist);
    if p in r.pc.plist then
      s.Set(t, r.(pc := pc'))
    else
      s.(nodes := s.nodes - {p}, cells := s.cells - {Next(p)}).Set(t, r.(retired := r.retired - {p}, pc := pc'))
  }

  ghost function DoInherit(s: State, t: nat, u: nat, p: Ptr): State
    requires t < |s.recs| && u < |s.recs| && t != u
  {
    s.(nodes := s.nodes[p := Retired(t)])
     .Set(u, s.recs[u].(retired := s.recs[u].retired - {p}))
     .Set(t, s.recs[t].(retired := s.recs[t].retired + {p}))
  }

  /** Every record has h slots, and a scanner stays within the records there are. */
  ghost predicate Shape(h: nat, s: State) {
    forall t | 0 <= t < |s.recs| ::
      && |s.recs[t].slots| == h
      && (s.recs[t].pc.Loaded? ==> s.recs[t].pc.k < h)
      && (s.recs[t].pc.Stored? ==> s.recs[t].pc.k < h)
      && (s.recs[t].pc.Scanning? ==> s.recs[t].pc.n <= |s.recs|)
  }

  ghost function Exec(h: nat, s: State, e: Event): State
    requires Shape(h, s) && Enabled(h, s, e)
  {
    match e
    case Join => s.(recs := s.recs + [Rec(seq(h, i => 0), map[], {}, Ready)])
    case Load(t, cell, k) => s.Set(t, s.recs[t].(pc := Loaded(cell, k, s.Value(cell))))
    case Store(t) => DoStore(s, t)
    case Recheck(t) => DoRecheck(s, t)
    case Clear(t, k) => DoClear(s, t, k)
    case Allocate(p) => s.(nodes := s.nodes[p := Live], cells := s.cells[Next(p) := 0])
    case Link(cell, v) => s.(cells := s.cells[cell := v])
    case Retire(t, p) => DoRetire(s, t, p)
    case BeginScan(t) => s.Set(t, s.recs[t].(pc := Scanning(|s.recs|, 0, {})))
    case ReadSlot(t) => DoReadSlot(h, s, t)
    case EndRead(t) => s.Set(t, s.recs[t].(pc := Freeing(s.recs[t].retired, s.recs[t].pc.plist)))
    case Decide(t, p) => DoDecide(s, t, p)
    case EndScan(t) => s.Set(t, s.recs[t].(pc := Ready))
    case Inherit(t, u, p) => DoInherit(s, t, u, p)
  }

  ghost predicate Init(s: State) {
    s.nodes == map[] && s.recs == [] && forall c | c in s.cells :: s.cells[c] == 0
  }

  // ---------------------------------------------------------------- the invariant

  /** Slot k of thread t guards p: p was found linked after it had been published there. */
  ghost predicate Held(s: State, t: nat, k: nat, p: Ptr) {
    t < |s.recs| && k in s.recs[t].held && s.recs[t].held[k] == p
  }

  /** Links lead to nodes in use, from nodes that are allocated. */
  ghost predicate LinksOk(s: State) {
    && (forall c | c in s.cells && s.cells[c] != 0 :: s.cells[c] in s.nodes && s.nodes[s.cells[c]] == Live)
    && (forall p {:trigger Next(p)} | p in s.nodes && s.nodes[p].Retired? :: s.Value(Next(p)) == 0)
  }

  /** A guarded pointer is in the slot and its node is allocated. */
  ghost predicate HeldOk(s: State) {
    forall t: nat, k: nat, p {:trigger Held(s, t, k, p)} | Held(s, t, k, p) ::
      p != 0 && k < |s.recs[t].slots| && s.recs[t].slots[k] == p && p in s.nodes
  }

  /** A retired pointer is in the array of exactly one thread. */
  ghost predicate RetiredOk(s: State) {
    && (forall t, p | 0 <= t < |s.recs| && p in s.recs[t].retired :: p in s.nodes && s.nodes[p] == Retired(t))
    && (forall p | p in s.nodes && s.nodes[p].Retired? ::
          s.nodes[p].owner < |s.recs| && p in s.recs[s.nodes[p].owner].retired)
    && (forall t | 0 <= t < |s.recs| && s.recs[t].pc.Freeing? :: s.recs[t].pc.todo <= s.recs[t].retired)
  }

  /** What thread u's scan has not found and will not find is guarded by nobody. */
  ghost predicate ScanOk(s: State, u: nat)
    requires u < |s.recs|
  {
    var pc := s.recs[u].pc;
    match pc
    case Scanning(n, k, plist) =>
      forall t: nat, j: nat, p {:trigger Held(s, t, j, p)} | Held(s, t, j, p) && p in s.recs[u].retired
          && p !in plist ::
        t + 1 < n || (t + 1 == n && k <= j)
    case Freeing(todo, plist) =>
      forall t: nat, j: nat, p {:trigger Held(s, t, j, p)} | Held(s, t, j, p) && p in todo :: p in plist
    case _ => true
  }

  /** The source of a read under way is guarded by another slot; what was stored is in its slot,
      which guards nothing yet. */
  ghost predicate ReadOk(r: Rec) {
    && (r.pc.Loaded? ==> MayRead(r, r.pc.cell, r.pc.k))
    && (r.pc.Stored? ==> MayRead(r, r.pc.cell, r.pc.k) && r.pc.k < |r.slots| && r.slots[r.pc.k] == r.pc.v
                         && r.pc.k !in r.held)
  }

  ghost predicate Inv(h: nat, s: State) {
    && Shape(h, s) && LinksOk(s) && HeldOk(s) && RetiredOk(s)
    && (forall u | 0 <= u < |s.recs| :: ScanOk(s, u) && ReadOk(s.recs[u]))
  }

  // ---------------------------------------------------------------- steps of readers

  /** Thread t changes without guarding anything new. */
  ghost predicate Loosens(s: State, s': State, t: nat) {
    && t < |s.recs| && |s'.recs| == |s.recs| && (forall u | 0 <= u < |s.recs| && u != t :: s'.recs[u] == s.recs[u])
    && s'.nodes == s.nodes && s'.cells == s.cells
    && s'.recs[t].retired == s.recs[t].retired
    && (forall u: nat, j: nat, p {:trigger Held(s', u, j, p)} | Held(s', u, j, p) :: Held(s, u, j, p))
  }

  lemma LoosensKeeps(h: nat, s: State, s': State, t: nat)
    requires Inv(h, s) && Loosens(s, s', t) && Shape(h, s') && HeldOk(s')
    requires !s'.recs[t].pc.Scanning? && !s'.recs[t].pc.Freeing? && ReadOk(s'.recs[t])
    ensures Inv(h, s')
  {
    forall u | 0 <= u < |s'.recs| ensures ScanOk(s', u) && ReadOk(s'.recs[u]) {
      assert ScanOk(s, u);
      assert ReadOk(s.recs[u]);
    }
  }

  lemma LoadKeeps(h: nat, s: State, t: nat, cell: Cell, k: nat)
    requires Inv(h, s) && Enabled(h, s, Load(t, cell, k))
    ensures Inv(h, Exec(h, s, Load(t, cell, k)))
  {
    var s' := Exec(h, s, Load(t, cell, k));
    assert HeldOk(s') by {
      forall u: nat, j: nat, p | Held(s', u, j, p) ensures Held(s, u, j, p) {}
    }
    LoosensKeeps(h, s, s', t);
  }

  lemma StoreKeeps(h: nat, s: State, t: nat)
    requires Inv(h, s) && Enabled(h, s, Store(t))
    ensures Inv(h, Exec(h, s, Store(t)))
  {
    var s' := DoStore(s, t);
    assert ReadOk(s.recs[t]);
    assert HeldOk(s') by {
      forall u: nat, j: nat, p | Held(s', u, j, p) ensures Held(s, u, j, p) {}
    }
    assert ReadOk(s'.recs[t]) by {
      var pc := s.recs[t].pc;
      if pc.cell.Next? {
        var j :| j in s.recs[t].held && j != pc.k && s.recs[t].held[j] == pc.cell.node;
        assert j in s'.recs[t].held;
      }
    }
    LoosensKeeps(h, s, s', t);
  }

  lemma ClearKeeps(h: nat, s: State, t: nat, k: nat)
    requires Inv(h, s) && Enabled(h, s, Clear(t, k))
    ensures Inv(h, Exec(h, s, Clear(t, k)))
  {
    var s' := DoClear(s, t, k);
    assert HeldOk(s') by {
      forall u: nat, j: nat, p | Held(s', u, j, p) ensures Held(s, u, j, p) {}
    }
    LoosensKeeps(h, s, s', t);
  }

  lemma RecheckHolds(h: nat, s: State, t: nat)
    requires Inv(h, s) && Enabled(h, s, Recheck(t))
    ensures var pc := s.recs[t].pc;
            forall u: nat, j: nat, p {:trigger Held(DoRecheck(s, t), u, j, p)} | Held(DoRecheck(s, t), u, j, p) ::
              Held(s, u, j, p) || (u == t && j == pc.k && p == pc.v && p != 0 && p in s.nodes && s.nodes[p] == Live)
  {
  }

  lemma RecheckScans(h: nat, s: State, t: nat)
    requires Inv(h, s) && Enabled(h, s, Recheck(t))
    ensures forall u | 0 <= u < |s.recs| :: ScanOk(DoRecheck(s, t), u) && ReadOk(DoRecheck(s, t).recs[u])
  {
    var s' := DoRecheck(s, t);
    RecheckHolds(h, s, t);
    forall u | 0 <= u < |s'.recs| ensures ScanOk(s', u) && ReadOk(s'.recs[u]) {
      assert ScanOk(s, u) && ReadOk(s.recs[u]);
    }
  }

  lemma RecheckHeld(h: nat, s: State, t: nat)
    requires Inv(h, s) && Enabled(h, s, Recheck(t))
    ensures HeldOk(DoRecheck(s, t)) && Shape(h, DoRecheck(s, t))
  {
    assert ReadOk(s.recs[t]);
    RecheckHolds(h, s, t);
  }

  lemma RecheckLists(h: nat, s: State, t: nat)
    requires LinksOk(s) && RetiredOk(s) && Enabled(h, s, Recheck(t))
    ensures LinksOk(DoRecheck(s, t)) && RetiredOk(DoRecheck(s, t))
  {
  }

  /** A pointer found linked is in use, so no scan is deciding about it. */
  lemma RecheckKeeps(h: nat, s: State, t: nat)
    requires Inv(h, s) && Enabled(h, s, Recheck(t))
    ensures Inv(h, Exec(h, s, Recheck(t)))
  {
    RecheckHeld(h, s, t);
    RecheckLists(h, s, t);
    RecheckScans(h, s, t);
  }

  // ---------------------------------------------------------------- steps of writers

  lemma JoinKeeps(h: nat, s: State)
    requires Inv(h, s)
    ensures Inv(h, Exec(h, s, Join))
  {
    var s' := Exec(h, s, Join);
    forall u: nat, j: nat, p | Held(s', u, j, p) ensures Held(s, u, j, p) {
    }
    forall u | 0 <= u < |s'.recs| ensures ScanOk(s', u) && ReadOk(s'.recs[u]) {
      if u < |s.recs| {
        assert ScanOk(s, u) && ReadOk(s.recs[u]);
      }
    }
  }

  /** The threads' records stay as they are. */
  lemma SameRecs(h: nat, s: State, s': State)
    requires Inv(h, s) && s'.recs == s.recs && LinksOk(s')
    requires forall p | p in s.nodes :: p in s'.nodes && s'.nodes[p] == s.nodes[p]
    requires forall p | p in s'.nodes && p !in s.nodes :: s'.nodes[p] == Live
    ensures Inv(h, s')
  {
    forall u: nat, j: nat, p | Held(s', u, j, p) ensures Held(s, u, j, p) {
    }
    forall u | 0 <= u < |s'.recs| ensures ScanOk(s', u) && ReadOk(s'.recs[u]) {
      assert ScanOk(s, u) && ReadOk(s.recs[u]);
    }
  }

  lemma AllocateKeeps(h: nat, s: State, p: Ptr)
    requires Inv(h, s) && Enabled(h, s, Allocate(p))
    ensures Inv(h, Exec(h, s, Allocate(p)))
  {
    SameRecs(h, s, Exec(h, s, Allocate(p)));
  }

  lemma LinkKeeps(h: nat, s: State, cell: Cell, v: Ptr)
    requires Inv(h, s) && Enabled(h, s, Link(cell, v))
    ensures Inv(h, Exec(h, s, Link(cell, v)))
  {
    SameRecs(h, s, Exec(h, s, Link(cell, v)));
  }

  lemma RetireScans(h: nat, s: State, t: nat, p: Ptr)
    requires Inv(h, s) && Enabled(h, s, Event.Retire(t, p))
    ensures forall u | 0 <= u < |s.recs| :: ScanOk(DoRetire(s, t, p), u) && ReadOk(DoRetire(s, t, p).recs[u])
  {
    var s' := DoRetire(s, t, p);
    forall u: nat, j: nat, q | Held(s', u, j, q) ensures Held(s, u, j, q) {
    }
    forall u | 0 <= u < |s'.recs| ensures ScanOk(s', u) && ReadOk(s'.recs[u]) {
      assert ScanOk(s, u) && ReadOk(s.recs[u]);
    }
  }

  lemma RetireLists(h: nat, s: State, t: nat, p: Ptr)
    requires Inv(h, s) && Enabled(h, s, Event.Retire(t, p))
    ensures LinksOk(DoRetire(s, t, p)) && RetiredOk(DoRetire(s, t, p))
  {
  }

  lemma RetireHeld(h: nat, s: State, t: nat, p: Ptr)
    requires Inv(h, s) && Enabled(h, s, Event.Retire(t, p))
    ensures HeldOk(DoRetire(s, t, p)) && Shape(h, DoRetire(s, t, p))
  {
    var s' := DoRetire(s, t, p);
    forall u: nat, j: nat, q | Held(s', u, j, q) ensures Held(s, u, j, q) {
    }
  }

  lemma RetireKeeps(h: nat, s: State, t: nat, p: Ptr)
    requires Inv(h, s) && Enabled(h, s, Event.Retire(t, p))
    ensures Inv(h, Exec(h, s, Event.Retire(t, p)))
  {
    RetireScans(h, s, t, p);
    RetireLists(h, s, t, p);
    RetireHeld(h, s, t, p);
  }

  lemma InheritScans(h: nat, s: State, t: nat, u: nat, p: Ptr)
    requires Inv(h, s) && Enabled(h, s, Inherit(t, u, p))
    ensures forall v | 0 <= v < |s.recs| :: ScanOk(DoInherit(s, t, u, p), v) && ReadOk(DoInherit(s, t, u, p).recs[v])
  {
    var s' := DoInherit(s, t, u, p);
    forall v: nat, j: nat, q | Held(s', v, j, q) ensures Held(s, v, j, q) {
    }
    forall v | 0 <= v < |s'.recs| ensures ScanOk(s', v) && ReadOk(s'.recs[v]) {
      assert ScanOk(s, v) && ReadOk(s.recs[v]);
    }
  }

  lemma InheritRetired(s: State, t: nat, u: nat, p: Ptr)
    requires RetiredOk(s) && t < |s.recs| && u < |s.recs| && t != u && p in s.recs[u].retired
    requires s.recs[t].pc == Ready && s.recs[u].pc == Ready
    ensures RetiredOk(DoInherit(s, t, u, p))
  {
    var s' := DoInherit(s, t, u, p);
    forall v, q | 0 <= v < |s'.recs| && q in s'.recs[v].retired ensures q in s'.nodes && s'.nodes[q] == Retired(v) {
      if v != t {
        assert q in s.recs[v].retired && (v == u ==> q != p);
        assert s.nodes[q] == Retired(v) && s.nodes[p] == Retired(u);
      } else if q != p {
        assert q in s.recs[t].retired;
      }
    }
  }

  lemma InheritLinks(s: State, t: nat, u: nat, p: Ptr)
    requires LinksOk(s) && t < |s.recs| && u < |s.recs| && t != u && p in s.nodes && s.nodes[p] == Retired(u)
    ensures LinksOk(DoInherit(s, t, u, p))
  {
  }

  lemma InheritHeld(h: nat, s: State, t: nat, u: nat, p: Ptr)
    requires Inv(h, s) && Enabled(h, s, Inherit(t, u, p))
    ensures HeldOk(DoInherit(s, t, u, p)) && Shape(h, DoInherit(s, t, u, p))
  {
    var s' := DoInherit(s, t, u, p);
    forall v: nat, j: nat, q | Held(s', v, j, q) ensures Held(s, v, j, q) {
    }
  }

  lemma InheritKeeps(h: nat, s: State, t: nat, u: nat, p: Ptr)
    requires Inv(h, s) && Enabled(h, s, Inherit(t, u, p))
    ensures Inv(h, Exec(h, s, Inherit(t, u, p)))
  {
    InheritRetired(s, t, u, p);
    InheritLinks(s, t, u, p);
    InheritHeld(h, s, t, u, p);
    InheritScans(h, s, t, u, p);
  }

  // ---------------------------------------------------------------- steps of scanners

  /** Only the scanner's own progress changes. */
  ghost predicate ScanMove(s: State, s': State, t: nat, pc': Pc) {
    t < |s.recs| && s' == s.Set(t, s.recs[t].(pc := pc')) && !pc'.Loaded? && !pc'.Stored?
  }

  lemma ScanMoveKeeps(h: nat, s: State, s': State, t: nat, pc': Pc)
    requires Inv(h, s) && ScanMove(s, s', t, pc') && ScanOk(s', t)
    requires pc'.Scanning? ==> pc'.n <= |s.recs|
    requires pc'.Freeing? ==> pc'.todo <= s.recs[t].retired
    ensures Inv(h, s')
  {
    forall u: nat, j: nat, p | Held(s', u, j, p) ensures Held(s, u, j, p) {
    }
    forall u | 0 <= u < |s'.recs| ensures ScanOk(s', u) && ReadOk(s'.recs[u]) {
      assert ScanOk(s, u) && ReadOk(s.recs[u]);
    }
  }

  lemma BeginScanKeeps(h: nat, s: State, t: nat)
    requires Inv(h, s) && Enabled(h, s, BeginScan(t))
    ensures Inv(h, Exec(h, s, BeginScan(t)))
  {
    var s' := Exec(h, s, BeginScan(t));
    ScanMoveKeeps(h, s, s', t, s'.recs[t].pc);
  }

  lemma ReadSlotScan(h: nat, s: State, t: nat)
    requires Inv(h, s) && Enabled(h, s, ReadSlot(t))
    ensures ScanOk(DoReadSlot(h, s, t), t)
  {
    var s', pc := DoReadSlot(h, s, t), s.recs[t].pc;
    assert ScanOk(s, t);
    forall u: nat, j: nat, p | Held(s', u, j, p) && p in s'.recs[t].retired && p !in s'.recs[t].pc.plist
      ensures u + 1 < s'.recs[t].pc.n || (u + 1 == s'.recs[t].pc.n && s'.recs[t].pc.k <= j)
    {
      assert Held(s, u, j, p) && p !in pc.plist;
    }
  }

  /** A slot is read: a pointer guarded there joins plist, and the slots still to come are unchanged. */
  lemma ReadSlotKeeps(h: nat, s: State, t: nat)
    requires Inv(h, s) && Enabled(h, s, ReadSlot(t))
    ensures Inv(h, Exec(h, s, ReadSlot(t)))
  {
    var s' := DoReadSlot(h, s, t);
    ReadSlotScan(h, s, t);
    ScanMoveKeeps(h, s, s', t, s'.recs[t].pc);
  }

  lemma EndReadKeeps(h: nat, s: State, t: nat)
    requires Inv(h, s) && Enabled(h, s, EndRead(t))
    ensures Inv(h, Exec(h, s, EndRead(t)))
  {
    var s' := Exec(h, s, EndRead(t));
    assert ScanOk(s, t);
    forall u: nat, j: nat, p | Held(s', u, j, p) ensures Held(s, u, j, p) {
    }
    ScanMoveKeeps(h, s, s', t, s'.recs[t].pc);
  }

  lemma EndScanKeeps(h: nat, s: State, t: nat)
    requires Inv(h, s) && Enabled(h, s, EndScan(t))
    ensures Inv(h, Exec(h, s, EndScan(t)))
  {
    var s' := Exec(h, s, EndScan(t));
    ScanMoveKeeps(h, s, s', t, Ready);
  }

  /** A pointer that the scan decides to free is guarded by no slot. */
  lemma DecidesUnguarded(h: nat, s: State, t: nat, p: Ptr)
    requires Inv(h, s) && Enabled(h, s, Decide(t, p)) && p !in s.recs[t].pc.plist
    ensures forall u: nat, j: nat :: !Held(s, u, j, p)
  {
    assert ScanOk(s, t);
  }

  lemma FreeKeepsScans(h: nat, s: State, t: nat, p: Ptr)
    requires Inv(h, s) && Enabled(h, s, Decide(t, p)) && p !in s.recs[t].pc.plist
    ensures forall u | 0 <= u < |s.recs| :: ScanOk(DoDecide(s, t, p), u) && ReadOk(DoDecide(s, t, p).recs[u])
  {
    var s' := DoDecide(s, t, p);
    forall u: nat, j: nat, q | Held(s', u, j, q) ensures Held(s, u, j, q) {
    }
    forall u | 0 <= u < |s'.recs| ensures ScanOk(s', u) && ReadOk(s'.recs[u]) {
      assert ScanOk(s, u) && ReadOk(s.recs[u]);
    }
  }

  lemma FreeKeepsLists(h: nat, s: State, t: nat, p: Ptr)
    requires Inv(h, s) && Enabled(h, s, Decide(t, p)) && p !in s.recs[t].pc.plist
    ensures LinksOk(DoDecide(s, t, p)) && RetiredOk(DoDecide(s, t, p))
  {
  }

  lemma FreeKeepsHeld(h: nat, s: State, t: nat, p: Ptr)
    requires Inv(h, s) && Enabled(h, s, Decide(t, p)) && p !in s.recs[t].pc.plist
    ensures HeldOk(DoDecide(s, t, p)) && Shape(h, DoDecide(s, t, p))
  {
    var s' := DoDecide(s, t, p);
    DecidesUnguarded(h, s, t, p);
    forall u: nat, j: nat, q | Held(s', u, j, q) ensures Held(s, u, j, q) {
    }
  }

  lemma FreeKeeps(h: nat, s: State, t: nat, p: Ptr)
    requires Inv(h, s) && Enabled(h, s, Decide(t, p)) && p !in s.recs[t].pc.plist
    ensures Inv(h, DoDecide(s, t, p))
  {
    FreeKeepsLists(h, s, t, p);
    FreeKeepsHeld(h, s, t, p);
    FreeKeepsScans(h, s, t, p);
  }

  lemma DecideKeeps(h: nat, s: State, t: nat, p: Ptr)
    requires Inv(h, s) && Enabled(h, s, Decide(t, p))
    ensures Inv(h, Exec(h, s, Decide(t, p)))
  {
    var s', pc := DoDecide(s, t, p), s.recs[t].pc;
    if p in pc.plist {
      assert ScanOk(s, t);
      forall u: nat, j: nat, q | Held(s', u, j, q) ensures Held(s, u, j, q) {
      }
      ScanMoveKeeps(h, s, s', t, s'.recs[t].pc);
    } else {
      FreeKeeps(h, s, t, p);
    }
  }

  // ---------------------------------------------------------------- runs

  lemma StepKeepsInv(h: nat, s: State, e: Event)
    requires Inv(h, s) && Enabled(h, s, e)
    ensures Inv(h, Exec(h, s, e))
  {
    match e
    case Join => JoinKeeps(h, s);
    case Load(t, cell, k) => LoadKeeps(h, s, t, cell, k);
    case Store(t) => StoreKeeps(h, s, t);
    case Recheck(t) => RecheckKeeps(h, s, t);
    case Clear(t, k) => ClearKeeps(h, s, t, k);
    case Allocate(p) => AllocateKeeps(h, s, p);
    case Link(cell, v) => LinkKeeps(h, s, cell, v);
    case Retire(t, p) => RetireKeeps(h, s, t, p);
    case BeginScan(t) => BeginScanKeeps(h, s, t);
    case ReadSlot(t) => ReadSlotKeeps(h, s, t);
    case EndRead(t) => EndReadKeeps(h, s, t);
    case Decide(t, p) => DecideKeeps(h, s, t, p);
    case EndScan(t) => EndScanKeeps(h, s, t);
    case Inherit(t, u, p) => InheritKeeps(h, s, t, u, p);
  }

  /** The states that the events lead to, one after the other, from an empty collector. */
  ghost predicate Run(h: nat, run: seq<State>, events: seq<Event>) {
    && |run| == |events| + 1 && Init(run[0])
    && forall i {:trigger events[i]} | 0 <= i < |events| ::
         Shape(h, run[i]) && Enabled(h, run[i], events[i]) && run[i + 1] == Exec(h, run[i], events[i])
  }

  lemma {:induction false} RunKeepsInv(h: nat, run: seq<State>, events: seq<Event>, j: nat)
    requires Run(h, run, events) && j < |run|
    ensures Inv(h, run[j])
  {
    if j > 0 {
      RunKeepsInv(h, run, events, j - 1);
      var e := events[j - 1];
      assert run[j - 1 + 1] == Exec(h, run[j - 1], e);
      StepKeepsInv(h, run[j - 1], e);
    }
  }

  /** No step of any thread frees a pointer that some slot guards. */
  lemma GuardedNotFreed(h: nat, s: State, e: Event, t: nat, k: nat, p: Ptr)
    requires Inv(h, s) && Enabled(h, s, e) && Held(s, t, k, p)
    ensures p in s.nodes && p in Exec(h, s, e).nodes
  {
    if e.Decide? {
      if p == e.p && p !in s.recs[e.t].pc.plist {
        DecidesUnguarded(h, s, e.t, p);
      }
    }
  }

  /** Thread t publishes p in slot k and then finds its source still leading to p. */
  ghost predicate FindsLinked(s: State, e: Event, t: nat, k: nat, p: Ptr) {
    && e == Recheck(t) && t < |s.recs|
    && exists cell :: s.recs[t].pc == Stored(cell, k, p) && p != 0 && s.Value(cell) == p
  }

  /** Thread t clears slot k, or stores another pointer in it. */
  ghost predicate MovesOn(s: State, e: Event, t: nat, k: nat) {
    e == Clear(t, k) || (e == Store(t) && t < |s.recs| && s.recs[t].pc.Loaded? && s.recs[t].pc.k == k)
  }

  /** A successful second look makes the slot guard the pointer. */
  lemma RecheckGuards(h: nat, s: State, t: nat, k: nat, p: Ptr)
    requires Inv(h, s) && Enabled(h, s, Recheck(t)) && FindsLinked(s, Recheck(t), t, k, p)
    ensures Held(Exec(h, s, Recheck(t)), t, k, p)
  {
  }

  /** Every event but a thread's own store, second look and clearing leaves alone what its slots guard. */
  lemma OthersKeepHeld(h: nat, s: State, e: Event, t: nat)
    requires Shape(h, s) && Enabled(h, s, e) && t < |s.recs|
    requires !e.Store? && !e.Recheck? && !e.Clear?
    ensures SameHeld(s, Exec(h, s, e), t)
  {
    match e
    case ReadSlot(u) => assert SameHeld(s, DoReadSlot(h, s, u), t);
    case Decide(u, p) => assert SameHeld(s, DoDecide(s, u, p), t);
    case Retire(u, p) => assert SameHeld(s, DoRetire(s, u, p), t);
    case Inherit(u, v, p) => assert SameHeld(s, DoInherit(s, u, v, p), t);
    case _ => OwnMoveKeepsHeld(h, s, e, t);
  }

  ghost predicate SameHeld(s: State, s': State, t: nat) {
    t < |s.recs| && t < |s'.recs| && s'.recs[t].held == s.recs[t].held
  }

  /** Events that touch at most where a thread stands in its code. */
  lemma OwnMoveKeepsHeld(h: nat, s: State, e: Event, t: nat)
    requires Shape(h, s) && Enabled(h, s, e) && t < |s.recs|
    requires e.Join? || e.Load? || e.Allocate? || e.Link? || e.BeginScan? || e.EndRead? || e.EndScan?
    ensures SameHeld(s, Exec(h, s, e), t)
  {
  }

  /** The slot of a second look guards nothing before it. */
  lemma RecheckPersists(s: State, u: nat, t: nat, k: nat, p: Ptr)
    requires u < |s.recs| && s.recs[u].pc.Stored? && ReadOk(s.recs[u]) && Held(s, t, k, p)
    ensures Held(DoRecheck(s, u), t, k, p)
  {
  }

  /** Only moving on ends it. */
  lemma GuardPersists(h: nat, s: State, e: Event, t: nat, k: nat, p: Ptr)
    requires Inv(h, s) && Enabled(h, s, e) && Held(s, t, k, p) && !MovesOn(s, e, t, k)
    ensures Held(Exec(h, s, e), t, k, p)
  {
    match e
    case Store(u) => assert Exec(h, s, e) == DoStore(s, u);
    case Clear(u, j) => assert Exec(h, s, e) == DoClear(s, u, j);
    case Recheck(u) => RecheckPersists(s, u, t, k, p);
    case _ => OthersKeepHeld(h, s, e, t);
  }

  /** From the moment when a thread finds a pointer that it has published still linked, until it clears or reuses
      the slot, the node is never freed, whoever retires it, however many scans run, and whatever records are added. */
  lemma {:induction false} GuardedStaysAllocated(h: nat, run: seq<State>, events: seq<Event>, i: nat, j: nat,
                                                 t: nat, k: nat, p: Ptr)
    requires Run(h, run, events) && i < j < |run| && FindsLinked(run[i], events[i], t, k, p)
    requires forall l {:trigger events[l]} | i < l < j :: !MovesOn(run[l], events[l], t, k)
    ensures Held(run[j], t, k, p) && p in run[j].nodes
  {
    RunKeepsInv(h, run, events, j - 1);
    assert run[j - 1 + 1] == Exec(h, run[j - 1], events[j - 1]);
    if j == i + 1 {
      RecheckGuards(h, run[i], t, k, p);
    } else {
      GuardedStaysAllocated(h, run, events, i, j - 1, t, k, p);
      GuardPersists(h, run[j - 1], events[j - 1], t, k, p);
    }
    RunKeepsInv(h, run, events, j);
  }

  /** A thread that reads a node's link, for the first or the second time, reads memory that is not freed. */
  lemma ReadsAllocated(h: nat, run: seq<State>, events: seq<Event>, j: nat, t: nat, cell: Cell)
    requires Run(h, run, events) && j < |events| && cell.Next?
    requires || (events[j].Load? && events[j].cell == cell)
             || (events[j] == Recheck(t) && run[j].recs[t].pc.cell == cell)
    ensures cell.node in run[j].nodes
  {
    RunKeepsInv(h, run, events, j);
    var s := run[j];
    var u, k := if events[j].Load? then events[j].t else t, if events[j].Load? then events[j].k else s.recs[t].pc.k;
    var r := s.recs[u];
    assert ReadOk(r);
    assert MayRead(r, cell, k);
    var i :| i in r.held && i != k && r.held[i] == cell.node;
    assert Held(s, u, i, cell.node);
  }

  // ---------------------------------------------------------------- what getAndGuard obtains

  /** Between the load and the second look of getAndGuard: v is the target. */
  predicate Targets(r: Rec, cell: Cell, k: nat, v: Ptr) {
    r.pc == Loaded(cell, k, v) || r.pc == Stored(cell, k, v)
  }

  /** The steps of thread t on the way to the end of its read or its scan. */
  predicate Goes(e: Event, t: nat) {
    || e == Store(t) || e == Recheck(t) || e == ReadSlot(t) || e == EndRead(t) || (e.Decide? && e.t == t)
    || e == EndScan(t)
  }

  ghost predicate SamePc(s: State, s': State, t: nat) {
    t < |s.recs| && t < |s'.recs| && s'.recs[t].pc == s.recs[t].pc
  }

  /** The others do not move a thread in its code. */
  lemma OthersKeepPc(h: nat, s: State, e: Event, t: nat)
    requires Shape(h, s) && Enabled(h, s, e) && t < |s.recs| && s.recs[t].pc != Ready && !Goes(e, t)
    ensures SamePc(s, Exec(h, s, e), t)
  {
    match e
    case Store(u) => assert SamePc(s, DoStore(s, u), t);
    case Recheck(u) => assert SamePc(s, DoRecheck(s, u), t);
    case Clear(u, k) => assert SamePc(s, DoClear(s, u, k), t);
    case ReadSlot(u) => assert SamePc(s, DoReadSlot(h, s, u), t);
    case Decide(u, p) => assert SamePc(s, DoDecide(s, u, p), t);
    case Retire(u, p) => assert SamePc(s, DoRetire(s, u, p), t);
    case Inherit(u, v, p) => assert SamePc(s, DoInherit(s, u, v, p), t);
    case _ => OwnMoveKeepsPc(h, s, e, t);
  }

  lemma OwnMoveKeepsPc(h: nat, s: State, e: Event, t: nat)
    requires Shape(h, s) && Enabled(h, s, e) && t < |s.recs| && s.recs[t].pc != Ready && !Goes(e, t)
    requires e.Join? || e.Load? || e.Allocate? || e.Link? || e.BeginScan? || e.EndRead? || e.EndScan?
    ensures SamePc(s, Exec(h, s, e), t)
  {
  }

  lemma TargetStays(h: nat, s: State, e: Event, t: nat, cell: Cell, k: nat, v: Ptr)
    requires Shape(h, s) && Enabled(h, s, e) && t < |s.recs| && Targets(s.recs[t], cell, k, v) && e != Recheck(t)
    ensures var s' := Exec(h, s, e); t < |s'.recs| && Targets(s'.recs[t], cell, k, v)
  {
    if e != Store(t) {
      OthersKeepPc(h, s, e, t);
    }
  }

  /** What a thread publishes and looks at again is what the cell held at its load. */
  lemma {:induction false} TargetLoaded(h: nat, run: seq<State>, events: seq<Event>, i: nat, j: nat,
                                        t: nat, cell: Cell, k: nat)
    requires Run(h, run, events) && i < j < |run| && events[i] == Load(t, cell, k)
    requires forall l {:trigger events[l]} | i < l < j :: events[l] != Recheck(t)
    ensures t < |run[j].recs| && Targets(run[j].recs[t], cell, k, run[i].Value(cell))
  {
    assert run[j - 1 + 1] == Exec(h, run[j - 1], events[j - 1]);
    if i + 1 < j {
      TargetLoaded(h, run, events, i, j - 1, t, cell, k);
      TargetStays(h, run[j - 1], events[j - 1], t, cell, k, run[i].Value(cell));
    }
  }

  /** getAndGuard leaves in its slot what the cell held at its load, and guards it exactly when that is no NULL and the
      cell still holds it at the second look. */
  lemma GetAndGuard(h: nat, run: seq<State>, events: seq<Event>, i: nat, j: nat, t: nat, cell: Cell, k: nat)
    requires Run(h, run, events) && i < j < |events| && events[i] == Load(t, cell, k) && events[j] == Recheck(t)
    requires forall l {:trigger events[l]} | i < l < j :: events[l] != Recheck(t)
    ensures var v := run[i].Value(cell);
            && t < |run[j + 1].recs| && k < |run[j + 1].recs[t].slots| && run[j + 1].recs[t].slots[k] == v
            && (Held(run[j + 1], t, k, v) <==> v != 0 && run[j].Value(cell) == v)
  {
    TargetLoaded(h, run, events, i, j, t, cell, k);
    RunKeepsInv(h, run, events, j);
    assert ReadOk(run[j].recs[t]);
    assert run[j + 1] == Exec(h, run[j], events[j]);
    assert Exec(h, run[j], events[j]) == DoRecheck(run[j], t);
  }

  // ---------------------------------------------------------------- what a scan keeps

  function Found(pc: Pc): set<Ptr> {
    match pc
    case Scanning(_, _, plist) => plist
    case Freeing(_, plist) => plist
    case _ => {}
  }

  /** Some slot holds p. */
  ghost predicate Posts(s: State, p: Ptr) {
    exists u, k :: 0 <= u < |s.recs| && 0 <= k < |s.recs[u].slots| && s.recs[u].slots[k] == p
  }

  ghost predicate FindsNoMore(s: State, s': State, t: nat) {
    t < |s.recs| && t < |s'.recs| && Found(s'.recs[t].pc) <= Found(s.recs[t].pc)
  }

  /** A scan finds pointers only by its own reads. */
  lemma OnlyReadsFind(h: nat, s: State, e: Event, t: nat)
    requires Shape(h, s) && Enabled(h, s, e) && t < |s.recs| && e != ReadSlot(t)
    ensures FindsNoMore(s, Exec(h, s, e), t)
  {
    match e
    case ReadSlot(u) => assert FindsNoMore(s, DoReadSlot(h, s, u), t);
    case Store(u) => assert FindsNoMore(s, DoStore(s, u), t);
    case Recheck(u) => assert FindsNoMore(s, DoRecheck(s, u), t);
    case Clear(u, k) => assert FindsNoMore(s, DoClear(s, u, k), t);
    case Decide(u, q) => assert FindsNoMore(s, DoDecide(s, u, q), t);
    case Retire(u, q) => assert FindsNoMore(s, DoRetire(s, u, q), t);
    case Inherit(u, v, q) => assert FindsNoMore(s, DoInherit(s, u, v, q), t);
    case _ => PlainMoveFinds(h, s, e, t);
  }

  lemma PlainMoveFinds(h: nat, s: State, e: Event, t: nat)
    requires Shape(h, s) && Enabled(h, s, e) && t < |s.recs|
    requires e.Join? || e.Load? || e.Allocate? || e.Link? || e.BeginScan? || e.EndRead? || e.EndScan?
    ensures FindsNoMore(s, Exec(h, s, e), t)
  {
  }

  /** And there where the pointer is posted. */
  lemma ReadSlotFinds(h: nat, s: State, t: nat, p: Ptr)
    requires Shape(h, s) && Enabled(h, s, ReadSlot(t)) && p !in Found(s.recs[t].pc)
    requires p in Found(DoReadSlot(h, s, t).recs[t].pc)
    ensures Posts(s, p)
  {
    var pc := s.recs[t].pc;
    assert pc.k < h && s.recs[pc.n - 1].slots[pc.k] == p;
  }

  /** Thread t's scan began by event i and is still under way. */
  ghost predicate InScan(run: seq<State>, events: seq<Event>, i: nat, j: nat, t: nat) {
    && i < j < |run| == |events| + 1 && events[i] == BeginScan(t)
    && forall l {:trigger run[l]} | i < l <= j ::
         t < |run[l].recs| && (run[l].recs[t].pc.Scanning? || run[l].recs[t].pc.Freeing?)
  }

  lemma {:induction false} FoundWherePosted(h: nat, run: seq<State>, events: seq<Event>, i: nat, j: nat, t: nat, p: Ptr)
    requires Run(h, run, events) && InScan(run, events, i, j, t) && p in Found(run[j].recs[t].pc)
    ensures exists l :: i < l < j && Posts(run[l], p)
  {
    assert run[j - 1 + 1] == Exec(h, run[j - 1], events[j - 1]);
    if i + 1 < j {
      assert run[j - 1].recs[t].pc.Scanning? || run[j - 1].recs[t].pc.Freeing?;
      if p in Found(run[j - 1].recs[t].pc) {
        FoundWherePosted(h, run, events, i, j - 1, t, p);
      } else if events[j - 1] == ReadSlot(t) {
        ReadSlotFinds(h, run[j - 1], t, p);
      } else {
        OnlyReadsFind(h, run[j - 1], events[j - 1], t);
      }
    }
  }

  /** A scan frees what it decides about unless some slot held it at an instant of the scan. */
  lemma UnpostedIsFreed(h: nat, run: seq<State>, events: seq<Event>, i: nat, j: nat, t: nat, p: Ptr)
    requires Run(h, run, events) && InScan(run, events, i, j, t) && j < |events| && events[j] == Decide(t, p)
    requires forall l {:trigger run[l]} | i < l < j :: !Posts(run[l], p)
    ensures p !in run[j + 1].nodes && t < |run[j + 1].recs| && p !in run[j + 1].recs[t].retired
  {
    assert run[j + 1] == Exec(h, run[j], events[j]);
    assert Exec(h, run[j], events[j]) == DoDecide(run[j], t, p);
    if p in Found(run[j].recs[t].pc) {
      FoundWherePosted(h, run, events, i, j, t, p);
    }
  }

  ghost predicate SameRec(s: State, s': State, t: nat) {
    t < |s.recs| && t < |s'.recs| && s'.recs[t] == s.recs[t]
  }

  /** Nobody else touches the record of a thread that is freeing. */
  lemma OthersKeepRec(h: nat, s: State, e: Event, t: nat)
    requires Shape(h, s) && Enabled(h, s, e) && t < |s.recs| && s.recs[t].pc.Freeing?
    requires !(e.Decide? && e.t == t) && e != EndScan(t)
    ensures SameRec(s, Exec(h, s, e), t)
  {
    match e
    case Store(u) => assert SameRec(s, DoStore(s, u), t);
    case Recheck(u) => assert SameRec(s, DoRecheck(s, u), t);
    case Clear(u, k) => assert SameRec(s, DoClear(s, u, k), t);
    case ReadSlot(u) => assert SameRec(s, DoReadSlot(h, s, u), t);
    case Decide(u, p) => assert SameRec(s, DoDecide(s, u, p), t);
    case Retire(u, p) => assert SameRec(s, DoRetire(s, u, p), t);
    case Inherit(u, v, p) => assert SameRec(s, DoInherit(s, u, v, p), t);
    case _ => PlainMoveKeepsRec(h, s, e, t);
  }

  lemma PlainMoveKeepsRec(h: nat, s: State, e: Event, t: nat)
    requires Shape(h, s) && Enabled(h, s, e) && t < |s.recs| && s.recs[t].pc.Freeing? && e != EndScan(t)
    requires e.Join? || e.Load? || e.Allocate? || e.Link? || e.BeginScan? || e.EndRead? || e.EndScan?
    ensures SameRec(s, Exec(h, s, e), t)
  {
  }

  /** Of the pointers that were retired, those decided about are kept exactly if the scan found them. */
  ghost predicate Decided(r: Rec, retired: set<Ptr>, plist: set<Ptr>) {
    && r.pc.Freeing? && r.pc.plist == plist && r.pc.todo <= r.retired <= retired
    && forall p | p in retired :: p in r.pc.todo || (p in r.retired <==> p in plist)
  }

  /** The second stage of thread t's scan began by event i and is still under way. */
  ghost predicate InFreeing(run: seq<State>, events: seq<Event>, i: nat, j: nat, t: nat) {
    && i < j < |run| == |events| + 1 && events[i] == EndRead(t) && t < |run[i].recs|
    && forall l {:trigger run[l]} | i < l <= j :: t < |run[l].recs| && run[l].recs[t].pc.Freeing?
  }

  lemma {:induction false} DecidedSoFar(h: nat, run: seq<State>, events: seq<Event>, i: nat, j: nat, t: nat)
    requires Run(h, run, events) && InFreeing(run, events, i, j, t)
    ensures Decided(run[j].recs[t], run[i].recs[t].retired, Found(run[i].recs[t].pc))
  {
    assert run[j - 1 + 1] == Exec(h, run[j - 1], events[j - 1]);
    if i + 1 < j {
      assert run[j - 1].recs[t].pc.Freeing?;
      DecidedSoFar(h, run, events, i, j - 1, t);
      if !(events[j - 1].Decide? && events[j - 1].t == t) {
        OthersKeepRec(h, run[j - 1], events[j - 1], t);
      }
    }
  }

  /** When a scan ends, exactly those of its thread's pointers remain retired that it had found. */
  lemma ScanOutcome(h: nat, run: seq<State>, events: seq<Event>, i: nat, j: nat, t: nat)
    requires Run(h, run, events) && InFreeing(run, events, i, j, t) && j < |events| && events[j] == EndScan(t)
    ensures forall p :: p in run[j].recs[t].retired <==>
                          p in run[i].recs[t].retired && p in Found(run[i].recs[t].pc)
  {
    DecidedSoFar(h, run, events, i, j, t);
    assert Enabled(h, run[j], events[j]);
  }

  // ---------------------------------------------------------------- calls end

  /** The phase of a guarded read or a scan, and in it what is left: records, slots of the present one, pointers. */
  datatype Rank = Rank(phase: nat, records: nat, left: nat)

  ghost predicate Below(a: Rank, b: Rank) {
    || a.phase < b.phase
    || (a.phase == b.phase && (a.records < b.records || (a.records == b.records && a.left < b.left)))
  }

  function RankOf(h: nat, pc: Pc): Rank {
    match pc
    case Ready => Rank(0, 0, 0)
    case Loaded(_, _, _) => Rank(2, 0, 0)
    case Stored(_, _, _) => Rank(1, 0, 0)
    case Scanning(n, k, _) => Rank(2, n, if k < h then h - k else 0)
    case Freeing(todo, _) => Rank(1, 0, |todo|)
  }

  ghost predicate Nearer(h: nat, s: State, s': State, t: nat) {
    t < |s.recs| && t < |s'.recs| && Below(RankOf(h, s'.recs[t].pc), RankOf(h, s.recs[t].pc))
  }

  lemma ReadSlotNearer(h: nat, s: State, t: nat)
    requires Shape(h, s) && Enabled(h, s, ReadSlot(t))
    ensures Nearer(h, s, DoReadSlot(h, s, t), t)
  {
  }

  lemma DecideNearer(h: nat, s: State, t: nat, p: Ptr)
    requires Shape(h, s) && Enabled(h, s, Decide(t, p))
    ensures Nearer(h, s, DoDecide(s, t, p), t)
  {
    assert |s.recs[t].pc.todo - {p}| < |s.recs[t].pc.todo|;
  }

  lemma StepNearer(h: nat, s: State, e: Event, t: nat)
    requires Shape(h, s) && Enabled(h, s, e) && t < |s.recs| && Goes(e, t)
    ensures Nearer(h, s, Exec(h, s, e), t)
  {
    match e
    case Store(_) => assert Nearer(h, s, DoStore(s, t), t);
    case Recheck(_) => assert Nearer(h, s, DoRecheck(s, t), t);
    case ReadSlot(_) => ReadSlotNearer(h, s, t);
    case Decide(_, p) => DecideNearer(h, s, t, p);
    case _ =>
  }

  /** The next step is always possible. */
  lemma NextStep(h: nat, s: State, t: nat) returns (e: Event)
    requires t < |s.recs| && s.recs[t].pc != Ready
    ensures Goes(e, t) && Enabled(h, s, e)
  {
    match s.recs[t].pc
    case Loaded(_, _, _) => e := Store(t);
    case Stored(_, _, _) => e := Recheck(t);
    case Scanning(n, _, _) => e := if n > 0 then ReadSlot(t) else EndRead(t);
    case Freeing(todo, _) =>
      if todo == {} {
        e := EndScan(t);
      } else {
        var p :| p in todo;
        e := Decide(t, p);
      }
  }

  /** In every run guarded reads and scans come to an end: until then the thread has a step to take, which brings it
      nearer, and no other thread, with whatever records it pushes, sets it back. */
  lemma CallsEnd(h: nat, run: seq<State>, events: seq<Event>, j: nat, t: nat) returns (e: Event)
    requires Run(h, run, events) && j < |events| && t < |run[j].recs| && run[j].recs[t].pc != Ready
    ensures Goes(e, t) && Enabled(h, run[j], e)
    ensures if Goes(events[j], t) then Nearer(h, run[j], run[j + 1], t) else SamePc(run[j], run[j + 1], t)
  {
    e := NextStep(h, run[j], t);
    assert run[j + 1] == Exec(h, run[j], events[j]);
    if Goes(events[j], t) {
      StepNearer(h, run[j], events[j], t);
    } else {
      OthersKeepPc(h, run[j], events[j], t);
    }
  }
}
