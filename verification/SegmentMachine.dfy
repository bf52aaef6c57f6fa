/** Any number of threads that get and set buckets of the table at once, one shared access at a time: a segment is made
    by whichever thread sets the first of its buckets, and several may try. */
module SegmentMachine {
  import opened Options
  import opened BucketTable
  import Runs

  type Id = nat

  type Tid = nat

  /** A bucket's head. */
  type Head = nat

  datatype Pc =
    | Idle
    | Check(b: nat, v: Head)              // setBucket: is the segment's pointer NULL?
    | Swap(b: nat, v: Head, mine: Id)     // allocateSegment; CAS( pointer, NULL, mine )
    | Reload(b: nat, v: Head)             // the pointer again
    | Write(b: nat, v: Head, a: Id)       // store the head there
    | Look(b: nat)                        // getBucket: the segment's pointer
    | Read(b: nat, a: Id)                 // load the head there
    | Got(b: nat, r: Option<Head>)

  /** The allocated segments by address, and the table of pointers to them. */
  datatype State = State(heap: map<Id, seq<Option<Head>>>, segments: seq<Option<Id>>, threads: map<Tid, Pc>)
  {
    function Then(t: Tid, pc: Pc): State {
      this.(threads := threads[t := pc])
    }
  }

  datatype Event = Set(t: Tid, b: nat, v: Head) | Get(t: Tid, b: nat) | Step(t: Tid, address: Id)

  /** The pointers that a step follows are valid, and the address of a new segment is unused. */
  predicate Enabled(m: Metrics, s: State, e: Event)
    requires m.segmentSizeLog2 >= 0 && m.segmentSize > 0
  {
    && e.t in s.threads
    && match e
       case Set(t, b, _) => s.threads[t] == Idle && b < m.capacity
       case Get(t, b) => s.threads[t] == Idle && b < m.capacity
       case Step(t, address) =>
         match s.threads[t]
         case Idle => false
         case Check(b, _) => 0 <= Segment(m, b) < |s.segments| && address !in s.heap
         case Swap(b, _, _) => 0 <= Segment(m, b) < |s.segments|
         case Reload(b, _) => 0 <= Segment(m, b) < |s.segments| && s.segments[Segment(m, b)].Some?
         case Write(b, _, a) => a in s.heap && 0 <= Offset(m, b) < |s.heap[a]|
         case Look(b) => 0 <= Segment(m, b) < |s.segments|
         case Read(b, a) => a in s.heap && 0 <= Offset(m, b) < |s.heap[a]|
         case Got(_, _) => true
  }

  function Moves(m: Metrics, s: State, t: Tid, address: Id): State
    requires m.segmentSizeLog2 >= 0 && m.segmentSize > 0 && Enabled(m, s, Step(t, address))
  {
    match s.threads[t]
    case Check(b, v) =>
      if s.segments[Segment(m, b)] == None then
        s.(heap := s.heap[address := seq(m.segmentSize, k => None)]).Then(t, Swap(b, v, address))
      else
        s.Then(t, Reload(b, v))
    case Swap(b, v, mine) =>
      if s.segments[Segment(m, b)] == None then
        s.(segments := s.segments[Segment(m, b) := Some(mine)]).Then(t, Reload(b, v))
      else
        // Another thread has made the segment: destroySegment.
        s.(heap := s.heap - {mine}).Then(t, Reload(b, v))
    case Reload(b, v) => s.Then(t, Write(b, v, s.segments[Segment(m, b)].value))
    case Write(b, v, a) => s.(heap := s.heap[a := s.heap[a][Offset(m, b) := Some(v)]]).Then(t, Idle)
    case Look(b) =>
      var p := s.segments[Segment(m, b)];
      s.Then(t, if p == None then Got(b, None) else Read(b, p.value))
    case Read(b, a) => s.Then(t, Got(b, s.heap[a][Offset(m, b)]))
    case Got(_, _) => s.Then(t, Idle)
  }

  function Exec(m: Metrics, s: State, e: Event): State
    requires m.segmentSizeLog2 >= 0 && m.segmentSize > 0 && Enabled(m, s, e)
  {
    match e
    case Set(t, b, v) => s.Then(t, Check(b, v))
    case Get(t, b) => s.Then(t, Look(b))
    case Step(t, address) => Moves(m, s, t, address)
  }

  predicate Init(m: Metrics, s: State) {
    && |s.segments| == m.segmentCount && (forall i | 0 <= i < |s.segments| :: s.segments[i] == None)
    && forall t | t in s.threads :: s.threads[t] == Idle
  }

  // ---------------------------------------------------------------- the invariant

  /** The table points to different segments of the right size. */
  ghost predicate TableOk(m: Metrics, s: State) {
    && |s.segments| == m.segmentCount
    && (forall i | 0 <= i < |s.segments| && s.segments[i].Some? ::
          s.segments[i].value in s.heap && |s.heap[s.segments[i].value]| == m.segmentSize)
    && (forall i, j | 0 <= i < |s.segments| && 0 <= j < |s.segments| && i != j && s.segments[i].Some? ::
          s.segments[i] != s.segments[j])
  }

  /** The table's pointer for bucket b is a. */
  ghost predicate Leads(m: Metrics, s: State, b: nat, a: Id)
    requires m.segmentSizeLog2 >= 0
  {
    0 <= Segment(m, b) < |s.segments| && s.segments[Segment(m, b)] == Some(a)
  }

  /** A segment that its maker has not linked holds no head, and the table does not point to it. */
  ghost predicate Private(m: Metrics, s: State, a: Id) {
    && a in s.heap && |s.heap[a]| == m.segmentSize
    && (forall k | 0 <= k < |s.heap[a]| :: s.heap[a][k] == None)
    && forall i | 0 <= i < |s.segments| :: s.segments[i] != Some(a)
  }

  ghost predicate PcOk(m: Metrics, s: State, pc: Pc)
    requires m.segmentSizeLog2 >= 0
  {
    match pc
    case Idle => true
    case Check(b, _) => b < m.capacity
    case Swap(b, _, mine) => b < m.capacity && Private(m, s, mine)
    case Reload(b, _) => b < m.capacity && exists a :: Leads(m, s, b, a)
    case Write(b, _, a) => b < m.capacity && Leads(m, s, b, a)
    case Look(b) => b < m.capacity
    case Read(b, a) => b < m.capacity && Leads(m, s, b, a)
    case Got(b, _) => b < m.capacity
  }

  ghost predicate Inv(m: Metrics, s: State)
    requires m.segmentSizeLog2 >= 0
  {
    && TableOk(m, s)
    && (forall t | t in s.threads :: PcOk(m, s, s.threads[t]))
    && (forall t, u | t in s.threads && u in s.threads && t != u && s.threads[t].Swap? && s.threads[u].Swap? ::
          s.threads[t].mine != s.threads[u].mine)
  }

  lemma InitInv(m: Metrics, s: State)
    requires m.segmentSizeLog2 >= 0 && Init(m, s)
    ensures Inv(m, s)
  {
  }

  /** No thread is ever about to follow a pointer that is not valid. */
  lemma InvEnabled(m: Metrics, s: State, t: Tid, address: Id)
    requires m.Valid() && Inv(m, s) && t in s.threads && s.threads[t] != Idle && address !in s.heap
    ensures Enabled(m, s, Step(t, address))
  {
    assert PcOk(m, s, s.threads[t]);
    AddressInRange(m, s.threads[t].b);
  }

  // ---------------------------------------------------------------- what the table holds

  /** The head of bucket b, as a thread would find it now. */
  function HeadOf(m: Metrics, s: State, b: nat): Option<Head>
    requires m.segmentSizeLog2 >= 0 && m.segmentSize > 0
  {
    var i := Segment(m, b);
    if 0 <= i < |s.segments| && s.segments[i].Some? && s.segments[i].value in s.heap
       && 0 <= Offset(m, b) < |s.heap[s.segments[i].value]|
    then s.heap[s.segments[i].value][Offset(m, b)]
    else None
  }

  /** The step stores v as the head of bucket b. */
  predicate Stores(s: State, e: Event, b: nat) {
    e.Step? && e.t in s.threads && s.threads[e.t].Write? && s.threads[e.t].b == b
  }

  /** Threads keep their pointers while segments are only added. */
  ghost predicate Adds(s: State, s': State) {
    && |s'.segments| == |s.segments|
    && forall i | 0 <= i < |s.segments| && s.segments[i].Some? :: s'.segments[i] == s.segments[i]
  }

  lemma OtherKeeps(m: Metrics, s: State, s': State, pc: Pc)
    requires m.segmentSizeLog2 >= 0 && PcOk(m, s, pc) && Adds(s, s')
    requires pc.Swap? ==> pc.mine in s'.heap && s'.heap[pc.mine] == s.heap[pc.mine]
    requires pc.Swap? ==> forall i | 0 <= i < |s'.segments| :: s'.segments[i] != Some(pc.mine)
    ensures PcOk(m, s', pc)
  {
    if pc.Reload? {
      var a :| Leads(m, s, pc.b, a);
      assert Leads(m, s', pc.b, a);
    }
  }

  /** A step that changes neither the table nor a segment. */
  lemma QuietKeeps(m: Metrics, s: State, t: Tid, pc: Pc)
    requires m.segmentSizeLog2 >= 0 && Inv(m, s) && t in s.threads && PcOk(m, s, pc) && !pc.Swap?
    ensures Inv(m, s.Then(t, pc))
  {
    var s' := s.Then(t, pc);
    forall u | u in s'.threads ensures PcOk(m, s', s'.threads[u]) {
      OtherKeeps(m, s, s', s'.threads[u]);
    }
  }

  lemma AllocateKeeps(m: Metrics, s: State, t: Tid, address: Id)
    requires m.Valid() && Inv(m, s) && t in s.threads && s.threads[t].Check? && address !in s.heap
    requires var b := s.threads[t].b; 0 <= Segment(m, b) < |s.segments| && s.segments[Segment(m, b)] == None
    ensures Inv(m, Moves(m, s, t, address))
  {
    var s' := Moves(m, s, t, address);
    forall u | u in s.threads && u != t ensures PcOk(m, s', s'.threads[u]) && s'.threads[u] == s.threads[u] {
      assert PcOk(m, s, s.threads[u]);
      OtherKeeps(m, s, s', s.threads[u]);
    }
  }

  /** The first swap links its segment; only one thread's segment is in the table then. */
  lemma LinkKeeps(m: Metrics, s: State, t: Tid, address: Id)
    requires m.Valid() && Inv(m, s) && t in s.threads && s.threads[t].Swap?
    requires var b := s.threads[t].b; 0 <= Segment(m, b) < |s.segments| && s.segments[Segment(m, b)] == None
    ensures Inv(m, Moves(m, s, t, address))
  {
    var s', b, mine := Moves(m, s, t, address), s.threads[t].b, s.threads[t].mine;
    assert PcOk(m, s, s.threads[t]);
    assert Leads(m, s', b, mine);
    forall u | u in s.threads && u != t ensures PcOk(m, s', s'.threads[u]) && s'.threads[u] == s.threads[u] {
      assert PcOk(m, s, s.threads[u]);
      OtherKeeps(m, s, s', s.threads[u]);
    }
  }

  /** A thread that is too late destroys its own segment, to which nothing points. */
  lemma DestroyKeeps(m: Metrics, s: State, t: Tid, address: Id)
    requires m.Valid() && Inv(m, s) && t in s.threads && s.threads[t].Swap?
    requires var b := s.threads[t].b; 0 <= Segment(m, b) < |s.segments| && s.segments[Segment(m, b)].Some?
    ensures Inv(m, Moves(m, s, t, address))
  {
    var s', b := Moves(m, s, t, address), s.threads[t].b;
    assert PcOk(m, s, s.threads[t]);
    assert Leads(m, s', b, s.segments[Segment(m, b)].value);
    forall u | u in s.threads && u != t ensures PcOk(m, s', s'.threads[u]) && s'.threads[u] == s.threads[u] {
      assert PcOk(m, s, s.threads[u]);
      OtherKeeps(m, s, s', s.threads[u]);
    }
  }

  lemma WriteKeeps(m: Metrics, s: State, t: Tid, address: Id)
    requires m.Valid() && Inv(m, s) && t in s.threads && s.threads[t].Write? && Enabled(m, s, Step(t, address))
    ensures Inv(m, Moves(m, s, t, address))
  {
    var s' := Moves(m, s, t, address);
    assert PcOk(m, s, s.threads[t]);
    forall u | u in s.threads && u != t ensures PcOk(m, s', s'.threads[u]) && s'.threads[u] == s.threads[u] {
      assert PcOk(m, s, s.threads[u]);
      OtherKeeps(m, s, s', s.threads[u]);
    }
  }

  lemma MovesKeeps(m: Metrics, s: State, t: Tid, address: Id)
    requires m.Valid() && Inv(m, s) && Enabled(m, s, Step(t, address))
    ensures Inv(m, Moves(m, s, t, address))
  {
    var pc := s.threads[t];
    assert PcOk(m, s, pc);
    match pc
    case Check(b, v) =>
      if s.segments[Segment(m, b)] == None {
        AllocateKeeps(m, s, t, address);
      } else {
        assert Leads(m, s, b, s.segments[Segment(m, b)].value);
        QuietKeeps(m, s, t, Reload(b, v));
      }
    case Swap(b, _, _) =>
      if s.segments[Segment(m, b)] == None {
        LinkKeeps(m, s, t, address);
      } else {
        DestroyKeeps(m, s, t, address);
      }
    case Write(_, _, _) => WriteKeeps(m, s, t, address);
    case Reload(b, v) => QuietKeeps(m, s, t, Write(b, v, s.segments[Segment(m, b)].value));
    case Look(_) => QuietKeeps(m, s, t, Moves(m, s, t, address).threads[t]);
    case Read(b, a) => QuietKeeps(m, s, t, Got(b, s.heap[a][Offset(m, b)]));
    case Got(_, _) => QuietKeeps(m, s, t, Idle);
  }

  lemma StepKeepsInv(m: Metrics, s: State, e: Event)
    requires m.Valid() && Inv(m, s) && Enabled(m, s, e)
    ensures Inv(m, Exec(m, s, e))
  {
    match e
    case Set(t, b, v) =>
      assert PcOk(m, s, Check(b, v));
      QuietKeeps(m, s, t, Check(b, v));
    case Get(t, b) =>
      assert PcOk(m, s, Look(b));
      QuietKeeps(m, s, t, Look(b));
    case Step(t, address) => MovesKeeps(m, s, t, address);
  }

  // ---------------------------------------------------------------- no head is lost

  lemma WriteStores(m: Metrics, s: State, t: Tid, address: Id, b: nat)
    requires m.Valid() && Inv(m, s) && Enabled(m, s, Step(t, address)) && s.threads[t].Write? && b < m.capacity
    ensures HeadOf(m, Moves(m, s, t, address), b) ==
              if s.threads[t].b == b then Some(s.threads[t].v) else HeadOf(m, s, b)
  {
    assert PcOk(m, s, s.threads[t]);
    AddressInRange(m, b);
    AddressInRange(m, s.threads[t].b);
    if s.threads[t].b != b && Segment(m, b) == Segment(m, s.threads[t].b) && Offset(m, b) == Offset(m, s.threads[t].b) {
      AddressInjective(m, b, s.threads[t].b);
    }
  }

  lemma OthersLeaveHeads(m: Metrics, s: State, t: Tid, address: Id, b: nat)
    requires m.Valid() && Inv(m, s) && Enabled(m, s, Step(t, address)) && !s.threads[t].Write? && b < m.capacity
    ensures HeadOf(m, Moves(m, s, t, address), b) == HeadOf(m, s, b)
  {
    assert PcOk(m, s, s.threads[t]);
    AddressInRange(m, b);
  }

  /** Only the store of a head changes what a bucket holds: not the making, linking or destroying of segments. */
  lemma StepHeads(m: Metrics, s: State, e: Event, b: nat)
    requires m.Valid() && Inv(m, s) && Enabled(m, s, e) && b < m.capacity
    ensures HeadOf(m, Exec(m, s, e), b) == if Stores(s, e, b) then Some(s.threads[e.t].v) else HeadOf(m, s, b)
  {
    if e.Step? {
      if s.threads[e.t].Write? {
        WriteStores(m, s, e.t, e.address, b);
      } else {
        OthersLeaveHeads(m, s, e.t, e.address, b);
      }
    }
  }

  ghost predicate Run(m: Metrics, run: seq<State>, events: seq<Event>) {
    && m.Valid() && |run| == |events| + 1 && Init(m, run[0])
    && forall i {:trigger events[i]} | 0 <= i < |events| ::
         Enabled(m, run[i], events[i]) && run[i + 1] == Exec(m, run[i], events[i])
  }

  lemma {:induction false} RunKeepsInv(m: Metrics, run: seq<State>, events: seq<Event>, j: nat)
    requires Run(m, run, events) && j < |run|
    ensures Inv(m, run[j])
  {
    if j == 0 {
      InitInv(m, run[0]);
    } else {
      RunKeepsInv(m, run, events, j - 1);
      assert run[j - 1 + 1] == Exec(m, run[j - 1], events[j - 1]);
      StepKeepsInv(m, run[j - 1], events[j - 1]);
    }
  }

  /** The last of the first j steps that stored a head of bucket b, and the head it stored. */
  ghost function LastStored(run: seq<State>, events: seq<Event>, b: nat, j: nat): Option<Head>
    requires j <= |events| < |run|
  {
    if j == 0 then None
    else if Stores(run[j - 1], events[j - 1], b) then Some(run[j - 1].threads[events[j - 1].t].v)
    else LastStored(run, events, b, j - 1)
  }

  /** Whichever threads make segments at the same time, no head is lost: at every instant each bucket holds the head
      that was stored last, and none before the first store. */
  lemma {:induction false} HoldsLastStored(m: Metrics, run: seq<State>, events: seq<Event>, j: nat, b: nat)
    requires Run(m, run, events) && j < |run| && b < m.capacity
    ensures HeadOf(m, run[j], b) == LastStored(run, events, b, j)
  {
    if j == 0 {
      AddressInRange(m, b);
    } else {
      HoldsLastStored(m, run, events, j - 1, b);
      RunKeepsInv(m, run, events, j - 1);
      assert run[j - 1 + 1] == Exec(m, run[j - 1], events[j - 1]);
      StepHeads(m, run[j - 1], events[j - 1], b);
    }
  }

  lemma ReadsHead(m: Metrics, s: State, t: Tid, address: Id)
    requires m.Valid() && Inv(m, s) && Enabled(m, s, Step(t, address)) && (s.threads[t].Look? || s.threads[t].Read?)
    ensures var pc' := Moves(m, s, t, address).threads[t];
            pc'.Got? ==> pc'.b == s.threads[t].b < m.capacity && pc'.r == HeadOf(m, s, pc'.b)
  {
    assert PcOk(m, s, s.threads[t]);
    AddressInRange(m, s.threads[t].b);
  }

  /** getBucket, although it reads twice, obtains what the bucket holds at the instant of its last read: the head stored
      last before it. So the map above may take getting and setting a bucket for single steps. */
  lemma GetsLastStored(m: Metrics, run: seq<State>, events: seq<Event>, j: nat)
    requires Run(m, run, events) && j < |events| && events[j].Step?
    requires var t := events[j].t; !run[j].threads[t].Got? && run[j + 1].threads[t].Got?
    ensures var pc := run[j + 1].threads[events[j].t]; pc.r == LastStored(run, events, pc.b, j)
  {
    var t, address := events[j].t, events[j].address;
    RunKeepsInv(m, run, events, j);
    assert run[j + 1] == Exec(m, run[j], events[j]);
    ReadsHead(m, run[j], t, address);
    HoldsLastStored(m, run, events, j, run[j + 1].threads[t].b);
  }

  // ---------------------------------------------------------------- whole calls

  /** The thread is inside the call that event e began, for that event's bucket and head. */
  predicate WorksOn(e: Event, pc: Pc) {
    match e
    case Set(_, b, v) => (pc.Check? || pc.Swap? || pc.Reload? || pc.Write?) && pc.b == b && pc.v == v
    case Get(_, b) => (pc.Look? || pc.Read? || pc.Got?) && pc.b == b
    case Step(_, _) => false
  }

  /** Thread t has been inside the call that it entered by event i. */
  ghost predicate Call(run: seq<State>, events: seq<Event>, i: nat, j: nat, t: Tid) {
    && i < j < |run| == |events| + 1 && events[i].t == t && !events[i].Step?
    && forall l {:trigger run[l]} | i < l <= j :: t in run[l].threads && run[l].threads[t] != Idle
  }

  lemma MovesOn(m: Metrics, s: State, t: Tid, address: Id, e: Event)
    requires m.segmentSizeLog2 >= 0 && m.segmentSize > 0 && Enabled(m, s, Step(t, address))
    requires WorksOn(e, s.threads[t]) && Moves(m, s, t, address).threads[t] != Idle
    ensures WorksOn(e, Moves(m, s, t, address).threads[t])
  {
  }

  lemma {:induction false} StaysOn(m: Metrics, run: seq<State>, events: seq<Event>, i: nat, j: nat, t: Tid)
    requires Run(m, run, events) && Call(run, events, i, j, t)
    ensures WorksOn(events[i], run[j].threads[t])
  {
    assert run[j - 1 + 1] == Exec(m, run[j - 1], events[j - 1]);
    if i + 1 < j {
      assert run[j - 1].threads[t] != Idle;
      StaysOn(m, run, events, i, j - 1, t);
      if events[j - 1].t == t {
        MovesOn(m, run[j - 1], t, events[j - 1].address, events[i]);
      }
    }
  }

  /** setBucket returns by storing its head in its bucket, and stores nothing before; getBucket stores nothing. */
  lemma CallStores(m: Metrics, run: seq<State>, events: seq<Event>, i: nat, j: nat, t: Tid, b: nat)
    requires Run(m, run, events) && Call(run, events, i, j, t) && j < |events| && events[j].t == t && b < m.capacity
    ensures Stores(run[j], events[j], b) <==> events[i].Set? && events[i].b == b && run[j + 1].threads[t] == Idle
    ensures Stores(run[j], events[j], b) ==> HeadOf(m, run[j + 1], b) == Some(events[i].v)
  {
    StaysOn(m, run, events, i, j, t);
    assert run[j + 1] == Exec(m, run[j], events[j]);
    RunKeepsInv(m, run, events, j);
    StepHeads(m, run[j], events[j], b);
  }

  /** getBucket returns what its bucket held at the instant of its last read. */
  lemma GetAnswers(m: Metrics, run: seq<State>, events: seq<Event>, i: nat, j: nat, t: Tid)
    requires Run(m, run, events) && Call(run, events, i, j, t) && events[i].Get? && run[j].threads[t].Got?
    requires !run[j - 1].threads[t].Got? && events[j - 1].t == t && i + 1 < j
    ensures run[j].threads[t].r == LastStored(run, events, events[i].b, j - 1)
  {
    StaysOn(m, run, events, i, j, t);
    assert run[j - 1].threads[t] != Idle;
    GetsLastStored(m, run, events, j - 1);
  }

  /** How many of its own steps a call has still to make. */
  function StepsLeft(pc: Pc): nat {
    match pc
    case Idle => 0
    case Check(_, _) => 4
    case Swap(_, _, _) => 3
    case Reload(_, _) => 2
    case Write(_, _, _) => 1
    case Look(_) => 3
    case Read(_, _) => 2
    case Got(_, _) => 1
  }

  /** Every call ends after at most four steps of its own, whatever the other threads do. */
  lemma CallsEnd(m: Metrics, s: State, t: Tid, address: Id)
    requires m.segmentSizeLog2 >= 0 && m.segmentSize > 0 && Enabled(m, s, Step(t, address))
    ensures StepsLeft(Moves(m, s, t, address).threads[t]) < StepsLeft(s.threads[t])
  {
  }

  lemma StepAdds(m: Metrics, s: State, e: Event)
    requires m.Valid() && Enabled(m, s, e)
    ensures Adds(s, Exec(m, s, e))
  {
  }

  /** A segment once in the table stays there. */
  lemma SegmentsStay(m: Metrics, run: seq<State>, events: seq<Event>, i: nat, j: nat)
    requires Run(m, run, events) && i <= j < |run|
    ensures Adds(run[i], run[j])
  {
    forall k | 0 <= k < |run| - 1 ensures Adds(run[k], run[k + 1]) {
      assert run[k + 1] == Exec(m, run[k], events[k]);
      StepAdds(m, run[k], events[k]);
    }
    Runs.Preorder(run, (a: State, b: State) => Adds(a, b), i, j);
  }
}
