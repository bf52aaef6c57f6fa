/** The hazard pointer collector: the two scans of a thread's retired pointers, the inheriting of
    records left by dead threads, and the records themselves. */
module HazardScan {
  import opened RetiredPointers
  import opened Sorting

  type Tid = nat

  /** The owner of a record that nobody owns. */
  const NOBODY: Tid := 0

  // ---------------------------------------------------------------- what a scan must do

  /** The hazard slots of all records, each as it was read. */
  type Slots = seq<seq<nat>>

  ghost predicate Guards(slots: Slots, p: nat) {
    p != 0 && exists i, k :: 0 <= i < |slots| && 0 <= k < |slots[i]| && slots[i][k] == p
  }

  /** The retired pointers are split into those kept, which are guarded, and those freed, which are not. */
  ghost predicate Split(before: multiset<Retired>, slots: Slots, kept: multiset<Retired>, freed: multiset<Retired>) {
    && kept + freed == before
    && (forall r {:trigger Guards(slots, r.p)} | r in kept :: Guards(slots, r.p))
    && (forall r {:trigger Guards(slots, r.p)} | r in freed :: !Guards(slots, r.p))
  }

  /** There is only one way to do so. */
  lemma SplitUnique(before: multiset<Retired>, slots: Slots,
                   kept: multiset<Retired>, freed: multiset<Retired>,
                   kept': multiset<Retired>, freed': multiset<Retired>)
    requires Split(before, slots, kept, freed) && Split(before, slots, kept', freed')
    ensures kept == kept' && freed == freed'
  {
    forall r ensures kept[r] == kept'[r] && freed[r] == freed'[r] {
      assert kept[r] + freed[r] == before[r] == kept'[r] + freed'[r];
      if Guards(slots, r.p) {
        assert r !in freed && r !in freed';
      } else {
        assert r !in kept && r !in kept';
      }
    }
  }

  /** The guarded pointers, in order. */
  ghost function Kept(s: seq<Retired>, slots: Slots): seq<Retired> {
    if s == [] then [] else Kept(s[..|s| - 1], slots) + if Guards(slots, s[|s| - 1].p) then [s[|s| - 1]] else []
  }

  /** The others, in order. */
  ghost function Freed(s: seq<Retired>, slots: Slots): seq<Retired> {
    if s == [] then [] else Freed(s[..|s| - 1], slots) + if Guards(slots, s[|s| - 1].p) then [] else [s[|s| - 1]]
  }

  lemma {:induction false} KeptAndFreed(s: seq<Retired>, slots: Slots)
    ensures Split(multiset(s), slots, multiset(Kept(s, slots)), multiset(Freed(s, slots)))
  {
    if s != [] {
      var n := |s| - 1;
      KeptAndFreed(s[..n], slots);
      assert s == s[..n] + [s[n]];
    }
  }

  lemma NextDecided(s: seq<Retired>, i: nat, slots: Slots)
    requires i < |s|
    ensures Kept(s[..i + 1], slots) == Kept(s[..i], slots) + if Guards(slots, s[i].p) then [s[i]] else []
    ensures Freed(s[..i + 1], slots) == Freed(s[..i], slots) + if Guards(slots, s[i].p) then [] else [s[i]]
  {
    assert s[..i + 1][..i] == s[..i];
  }

  // ---------------------------------------------------------------- retired_vector

  /** A bounded array of retired pointers. */
  class RetiredVector {
    const arr: array<Retired>
    var size: nat

    ghost predicate Valid()
      reads this
    {
      size <= arr.Length
    }

    ghost function Contents(): seq<Retired>
      requires Valid()
      reads this, arr
    {
      arr[..size]
    }

    constructor (capacity: nat)
      ensures Valid() && fresh(arr) && arr.Length == capacity && Contents() == []
    {
      arr := new Retired[capacity](i => Retired(0, 0));
      size := 0;
    }

    predicate IsFull()
      reads this
    {
      size >= arr.Length
    }

    method Push(r: Retired)
      requires Valid() && !IsFull()
      modifies this, arr
      ensures Valid() && Contents() == old(Contents()) + [r]
      ensures forall k | size <= k < arr.Length :: arr[k] == old(arr[k])
    {
      arr[size] := r;
      size := size + 1;
    }

    method Clear()
      modifies this
      ensures Valid() && Contents() == []
    {
      size := 0;
    }
  }

  // ---------------------------------------------------------------- records

  /** HPRec with its list node: a thread's hazard slots and its retired pointers. */
  class HazardRecord {
    var owner: Tid
    var isFree: bool
    const hazards: array<nat>
    const retired: RetiredVector

    constructor (owner: Tid, slots: nat, capacity: nat)
      ensures this.owner == owner && !isFree && fresh(hazards) && fresh(retired) && fresh(retired.arr)
      ensures hazards.Length == slots && forall k | 0 <= k < slots :: hazards[k] == 0
      ensures retired.Valid() && retired.arr.Length == capacity && retired.Contents() == []
    {
      this.owner, isFree := owner, false;
      hazards := new nat[slots](k => 0);
      retired := new RetiredVector(capacity);
    }

    /** HPRec::clear */
    method ClearHazards()
      modifies hazards
      ensures forall k | 0 <= k < hazards.Length :: hazards[k] == 0
    {
      for k := 0 to hazards.Length
        invariant forall i | 0 <= i < k :: hazards[i] == 0
      {
        hazards[k] := 0;
      }
    }
  }

  /** The hazard arrays of the records. */
  ghost function HazardArrays(list: seq<HazardRecord>): set<object> {
    set i | 0 <= i < |list| :: list[i].hazards
  }

  /** The slots have the given values. */
  ghost predicate Hold(list: seq<HazardRecord>, slots: Slots)
    reads HazardArrays(list)
  {
    && |slots| == |list|
    && forall i | 0 <= i < |list| :: slots[i] == list[i].hazards[..]
  }

  /** seen holds exactly the non-null slots of the first n records and of the first k slots of the next. */
  ghost predicate Seen(slots: Slots, n: nat, k: nat, seen: set<nat>) {
    && (forall p | p in seen :: Guards(slots, p))
    && (forall i, j | 0 <= i < n && i < |slots| && 0 <= j < |slots[i]| && slots[i][j] != 0 :: slots[i][j] in seen)
    && (forall j | n < |slots| && 0 <= j < k && j < |slots[n]| && slots[n][j] != 0 :: slots[n][j] in seen)
  }

  lemma SeenAll(slots: Slots, seen: set<nat>)
    requires Seen(slots, |slots|, 0, seen)
    ensures forall p :: p in seen <==> Guards(slots, p)
  {
  }

  // ---------------------------------------------------------------- classic scan

  /** Stage 1: the non-null hazard pointers, in the order in which they are read. */
  method CollectHazards(list: seq<HazardRecord>, ghost slots: Slots) returns (plist: seq<nat>)
    requires Hold(list, slots)
    ensures forall p :: p in plist <==> Guards(slots, p)
  {
    plist := [];
    ghost var seen := {};
    for i := 0 to |list|
      invariant seen == set p | p in plist
      invariant Seen(slots, i, 0, seen)
    {
      var hazards := list[i].hazards;
      assert slots[i] == hazards[..];
      for k := 0 to hazards.Length
        invariant seen == set p | p in plist
        invariant Seen(slots, i, k, seen)
      {
        var hptr := hazards[k];
        if hptr != 0 {
          assert slots[i][k] == hptr;
          plist := plist + [hptr];
          seen := seen + {hptr};
        }
      }
    }
    SeenAll(slots, seen);
  }

  /** The sampled hazard pointers, sorted to simplify the search. */
  method SortedHazards(list: seq<HazardRecord>, ghost slots: Slots) returns (sorted: seq<nat>)
    requires Hold(list, slots)
    ensures SortedBy(sorted, p => p)
    ensures forall p :: p in sorted <==> Guards(slots, p)
  {
    var plist := CollectHazards(list, slots);
    sorted := Sort(plist, p => p);
    SortSorts(plist, p => p);
    assert forall p :: p in sorted <==> p in multiset(sorted);
  }

  /** classic_scan: sorts the sampled hazard pointers, searches each retired pointer among them, frees
      those not found and pushes the others back to the front of the same array. */
  method ClassicScan(list: seq<HazardRecord>, v: RetiredVector, ghost slots: Slots) returns (freed: seq<Retired>)
    requires v.Valid() && Hold(list, slots)
    modifies v, v.arr
    ensures v.Valid()
    ensures Split(multiset(old(v.Contents())), slots, multiset(v.Contents()), multiset(freed))
  {
    var sorted := SortedHazards(list, slots);
    ghost var before := v.Contents();
    var end := v.size;
    v.Clear();
    freed := [];
    for i := 0 to end
      invariant v.Valid() && v.size <= i
      invariant forall k | i <= k < end :: v.arr[k] == before[k]
      invariant v.Contents() == Kept(before[..i], slots) && freed == Freed(before[..i], slots)
    {
      var r := v.arr[i];
      NextDecided(before, i, slots);
      var found := BinarySearch(sorted, r.p);
      if found {
        v.Push(r);
      } else {
        freed := freed + [r];
      }
    }
    assert before[..end] == before;
    KeptAndFreed(before, slots);
  }

  // ---------------------------------------------------------------- in-place scan

  predicate IsMarked(r: Retired) {
    r.p % 2 == 1
  }

  function Mark(r: Retired): Retired {
    r.(p := if r.p % 2 == 1 then r.p else r.p + 1)
  }

  function Unmark(r: Retired): Retired {
    r.(p := r.p - r.p % 2)
  }

  function Address(r: Retired): int {
    r.p
  }

  /** Even pointers in strictly ascending order. */
  ghost predicate Ascending(s: seq<Retired>) {
    && (forall i | 0 <= i < |s| :: s[i].p % 2 == 0)
    && (forall i, j | 0 <= i < j < |s| :: s[i].p < s[j].p)
  }

  /** The first n entries of the array are those of s, the seen ones marked. */
  ghost predicate MarkedAs(a: seq<Retired>, s: seq<Retired>, seen: set<nat>) {
    && |a| == |s|
    && forall i | 0 <= i < |s| :: a[i] == if s[i].p in seen then Mark(s[i]) else s[i]
  }

  /** Marks do not disturb the order that the searches rely on. */
  lemma MarksKeepOrder(a: seq<Retired>, s: seq<Retired>, seen: set<nat>)
    requires Ascending(s) && MarkedAs(a, s, seen)
    ensures SortedBy(a, Address)
    ensures forall i, j | 0 <= i < j < |a| :: a[i].p < a[j].p
  {
  }

  /** Distinct even pointers in ascending order are strictly ascending. */
  lemma SortedAscends(before: seq<Retired>, sorted: seq<Retired>)
    requires Distinct(multiset(before)) && multiset(sorted) == multiset(before) && SortedBy(sorted, Address)
    requires forall i | 0 <= i < |before| :: !IsMarked(before[i])
    ensures Ascending(sorted)
  {
    forall i | 0 <= i < |sorted| ensures !IsMarked(sorted[i]) {
      assert sorted[i] in multiset(before);
      assert sorted[i] in before;
    }
    forall i, j | 0 <= i < j < |sorted| ensures sorted[i].p < sorted[j].p {
      DistinctPlaces(sorted, i, j);
      assert Address(sorted[i]) <= Address(sorted[j]);
    }
  }

  method Overwrite(v: RetiredVector, s: seq<Retired>)
    requires v.Valid() && |s| == v.size
    modifies v.arr
    ensures v.Valid() && v.Contents() == s
  {
    for i := 0 to v.size
      invariant forall k | 0 <= k < i :: v.arr[k] == s[k]
    {
      v.arr[i] := s[i];
    }
  }

  /** std::sort of the retired pointers by address. */
  method SortRetired(v: RetiredVector)
    requires v.Valid() && Distinct(multiset(v.Contents()))
    requires forall i | 0 <= i < v.size :: !IsMarked(v.arr[i])
    modifies v.arr
    ensures v.Valid() && multiset(v.Contents()) == multiset(old(v.Contents()))
    ensures Ascending(v.Contents())
  {
    ghost var before := v.Contents();
    var sorted := Sort(v.arr[..v.size], Address);
    SortSorts(before, Address);
    SortedAscends(before, sorted);
    Overwrite(v, sorted);
  }

  /** One hazard pointer: the retired pointer it guards, if any, is marked. */
  method MarkGuarded(v: RetiredVector, hptr: nat, ghost s: seq<Retired>, ghost seen: set<nat>)
    requires v.Valid() && Ascending(s) && MarkedAs(v.Contents(), s, seen) && hptr != 0
    modifies v.arr
    ensures v.Valid() && MarkedAs(v.Contents(), s, seen + {hptr})
  {
    MarksKeepOrder(v.Contents(), s, seen);
    ghost var a := v.Contents();
    var i := LowerBound(v.arr, v.size, Address, hptr);
    assert forall k | 0 <= k < v.size :: v.arr[k] == a[k];
    if i != v.size && v.arr[i].p == hptr {
      v.arr[i] := Mark(v.arr[i]);
    }
    forall k | 0 <= k < |s| ensures v.Contents()[k] == if s[k].p in seen + {hptr} then Mark(s[k]) else s[k] {
      if s[k].p == hptr {
        assert k >= i;
      }
    }
  }

  /** Every hazard slot of every record, each read once. */
  method MarkAllGuarded(list: seq<HazardRecord>, v: RetiredVector, ghost s: seq<Retired>, ghost slots: Slots)
    returns (ghost seen: set<nat>)
    requires Hold(list, slots)
    requires v.Valid() && Ascending(s) && v.Contents() == s
    modifies v.arr
    ensures v.Valid() && MarkedAs(v.Contents(), s, seen)
    ensures forall p :: p in seen <==> Guards(slots, p)
  {
    seen := {};
    for i := 0 to |list|
      invariant v.Valid() && MarkedAs(v.Contents(), s, seen)
      invariant Hold(list, slots)
      invariant Seen(slots, i, 0, seen)
    {
      var hazards := list[i].hazards;
      assert slots[i] == hazards[..];
      for k := 0 to hazards.Length
        invariant v.Valid() && MarkedAs(v.Contents(), s, seen)
        invariant Seen(slots, i, k, seen)
      {
        var hptr := hazards[k];
        if hptr != 0 {
          assert slots[i][k] == hptr;
          MarkGuarded(v, hptr, s, seen);
          seen := seen + {hptr};
        }
      }
    }
    SeenAll(slots, seen);
  }

  lemma MarkTells(a: seq<Retired>, s: seq<Retired>, seen: set<nat>, slots: Slots, i: nat)
    requires Ascending(s) && MarkedAs(a, s, seen) && i < |s|
    requires forall p :: p in seen <==> Guards(slots, p)
    ensures IsMarked(a[i]) <==> Guards(slots, s[i].p)
    ensures if IsMarked(a[i]) then Unmark(a[i]) == s[i] else a[i] == s[i]
  {
  }

  /** A marked entry is unmarked and copied down; the entries after it stay. */
  method MoveDown(v: RetiredVector, i: nat, insert: nat)
    requires v.Valid() && insert <= i < v.size
    modifies v.arr
    ensures v.arr[..insert + 1] == old(v.arr[..insert]) + [Unmark(old(v.arr[i]))]
    ensures v.arr[i + 1..v.size] == old(v.arr[i + 1..v.size])
  {
    v.arr[i] := Unmark(v.arr[i]);
    v.arr[insert] := v.arr[i];
  }

  /** The marked entries move to the front, unmarked; the others are freed. */
  method Compact(v: RetiredVector, ghost s: seq<Retired>, ghost seen: set<nat>, ghost slots: Slots)
    returns (freed: seq<Retired>)
    requires v.Valid() && Ascending(s) && MarkedAs(v.Contents(), s, seen)
    requires forall p :: p in seen <==> Guards(slots, p)
    modifies v, v.arr
    ensures v.Valid()
    ensures Split(multiset(s), slots, multiset(v.Contents()), multiset(freed))
  {
    ghost var a := v.Contents();
    var insert := 0;
    freed := [];
    for i := 0 to v.size
      invariant v.Valid() && v.size == |a| == |s| && insert <= i
      invariant v.arr[i..v.size] == a[i..]
      invariant v.arr[..insert] == Kept(s[..i], slots) && freed == Freed(s[..i], slots)
    {
      var r := v.arr[i];
      assert r == v.arr[i..v.size][0] == a[i];
      assert a[i..][1..] == a[i + 1..];
      assert v.arr[i..v.size][1..] == v.arr[i + 1..v.size];
      MarkTells(a, s, seen, slots, i);
      NextDecided(s, i, slots);
      if IsMarked(r) {
        MoveDown(v, i, insert);
        insert := insert + 1;
      } else {
        freed := freed + [r];
      }
    }
    assert s[..|s|] == s;
    v.size := insert;
    KeptAndFreed(s, slots);
  }

  /** Whether a retired pointer already has the bit that the scan uses for its marks. */
  method HasMarked(v: RetiredVector) returns (marked: bool)
    requires v.Valid()
    ensures marked <==> exists i :: 0 <= i < v.size && IsMarked(v.arr[i])
  {
    for i := 0 to v.size
      invariant forall k | 0 <= k < i :: !IsMarked(v.arr[k])
    {
      if IsMarked(v.arr[i]) {
        return true;
      }
    }
    return false;
  }

  /** inplace_scan: sorts the retired pointers and marks the guarded ones by their lowest bit; falls back
      on the other scan when a retired pointer already has that bit. */
  method InplaceScan(list: seq<HazardRecord>, v: RetiredVector, ghost slots: Slots) returns (freed: seq<Retired>)
    requires Hold(list, slots)
    requires v.Valid()
    requires (forall i | 0 <= i < v.size :: !IsMarked(v.arr[i])) ==> Distinct(multiset(v.Contents()))
    modifies v, v.arr
    ensures v.Valid()
    ensures Split(multiset(old(v.Contents())), slots, multiset(v.Contents()), multiset(freed))
  {
    ghost var before := multiset(v.Contents());
    var marked := HasMarked(v);
    if marked {
      freed := ClassicScan(list, v, slots);
    } else {
      SortRetired(v);
      ghost var s := v.Contents();
      assert multiset(s) == before;
      ghost var seen := MarkAllGuarded(list, v, s, slots);
      freed := Compact(v, s, seen, slots);
    }
  }

  /** Whichever scan is chosen, the same pointers are freed and the same remain. */
  method ScansAgree(list: seq<HazardRecord>, v: RetiredVector, w: RetiredVector, ghost slots: Slots)
    returns (freed: seq<Retired>, freed': seq<Retired>)
    requires Hold(list, slots) && v.Valid() && w.Valid() && v != w && v.arr != w.arr
    requires multiset(v.Contents()) == multiset(w.Contents())
    requires (forall i | 0 <= i < w.size :: !IsMarked(w.arr[i])) ==> Distinct(multiset(w.Contents()))
    modifies v, v.arr, w, w.arr
    ensures v.Valid() && w.Valid()
    ensures multiset(v.Contents()) == multiset(w.Contents()) && multiset(freed) == multiset(freed')
  {
    ghost var before := multiset(v.Contents());
    freed := ClassicScan(list, v, slots);
    ghost var kept := multiset(v.Contents());
    freed' := InplaceScan(list, w, slots);
    SplitUnique(before, slots, kept, multiset(freed), multiset(w.Contents()), multiset(freed'));
  }
}
