/** The list of hazard pointer records: how threads obtain and leave them, and how the pointers that a
    dead thread left behind are inherited. */
module HazardRecords {
  import opened RetiredPointers
  import opened HazardScan

  // ---------------------------------------------------------------- there is always room

  ghost function Flat(slots: Slots): seq<nat> {
    if slots == [] then [] else slots[0] + Flat(slots[1..])
  }

  lemma {:induction false} FlatLength(slots: Slots, h: nat)
    requires forall i | 0 <= i < |slots| :: |slots[i]| == h
    ensures |Flat(slots)| == |slots| * h
  {
    if slots != [] {
      FlatLength(slots[1..], h);
      assert |slots| * h == h + (|slots| - 1) * h;
    }
  }

  lemma {:induction false} GuardsFlat(slots: Slots, p: nat)
    requires Guards(slots, p)
    ensures p in Flat(slots)
  {
    var i, k :| 0 <= i < |slots| && 0 <= k < |slots[i]| && slots[i][k] == p;
    if i > 0 {
      assert slots[1..][i - 1][k] == p;
      GuardsFlat(slots[1..], p);
    }
  }

  ghost function Elements(s: seq<nat>): set<nat> {
    set p | p in s
  }

  lemma {:induction false} ElementsAtMost(s: seq<nat>)
    ensures |Elements(s)| <= |s|
  {
    if s != [] {
      ElementsAtMost(s[1..]);
      var rest := Elements(s[1..]);
      assert Elements(s) == rest + {s[0]};
      if s[0] in rest {
        assert rest + {s[0]} == rest;
      }
    }
  }

  ghost function Addresses(kept: seq<Retired>): set<nat> {
    set r | r in kept :: r.p
  }

  lemma {:induction false} DistinctAddresses(kept: seq<Retired>)
    requires Distinct(multiset(kept))
    ensures |Addresses(kept)| == |kept|
  {
    if kept != [] {
      var rest := kept[1..];
      assert kept == [kept[0]] + rest;
      assert multiset(kept) == multiset{kept[0]} + multiset(rest);
      DistinctPart(multiset(rest), multiset(kept));
      DistinctAddresses(rest);
      forall i | 0 <= i < |rest| ensures rest[i].p != kept[0].p {
        DistinctPlaces(kept, 0, i + 1);
      }
      assert Addresses(kept) == Addresses(rest) + {kept[0].p};
      assert kept[0].p !in Addresses(rest);
    }
  }

  /** What a scan keeps is no more than there are hazard slots. */
  lemma SurvivorsFit(slots: Slots, h: nat, kept: seq<Retired>)
    requires forall i | 0 <= i < |slots| :: |slots[i]| == h
    requires Distinct(multiset(kept)) && forall r | r in multiset(kept) :: Guards(slots, r.p)
    ensures |kept| <= |slots| * h
  {
    var a, b := Addresses(kept), Elements(Flat(slots));
    forall p | p in a ensures p in b {
      var r :| r in kept && r.p == p;
      assert r in multiset(kept);
      GuardsFlat(slots, p);
    }
    DistinctAddresses(kept);
    SubsetSize(a, b);
    ElementsAtMost(Flat(slots));
    FlatLength(slots, h);
  }

  lemma SubsetSize<T>(a: set<T>, b: set<T>)
    requires a <= b
    ensures |a| <= |b|
  {
    assert b == a + (b - a);
  }

  // ---------------------------------------------------------------- inheriting

  /** The slots were read from the records, which have h slots each. */
  ghost predicate Sized(list: seq<HazardRecord>, slots: Slots, h: nat)
    reads HazardArrays(list)
  {
    Hold(list, slots) && forall i | 0 <= i < |slots| :: |slots[i]| == h
  }

  /** An array that a scan has left: it is full only if all its pointers are guarded, and then there are no fewer
      hazard slots than places in it. */
  ghost predicate Settled(v: RetiredVector, slots: Slots, h: nat)
    reads v, v.arr
  {
    && v.Valid()
    && (v.IsFull() ==>
          && v.arr.Length <= |slots| * h
          && forall r {:trigger Guards(slots, r.p)} | r in multiset(v.Contents()) :: Guards(slots, r.p))
  }

  /** Scan, by either strategy. */
  method Scan(list: seq<HazardRecord>, v: RetiredVector, inplace: bool, ghost slots: Slots, ghost h: nat)
    returns (freed: seq<Retired>)
    requires v.Valid() && Distinct(multiset(v.Contents())) && Sized(list, slots, h)
    modifies v, v.arr
    ensures Settled(v, slots, h) && v.size <= |slots| * h
    ensures Split(multiset(old(v.Contents())), slots, multiset(v.Contents()), multiset(freed))
  {
    ghost var before := multiset(v.Contents());
    if inplace {
      freed := InplaceScan(list, v, slots);
    } else {
      freed := ClassicScan(list, v, slots);
    }
    DistinctPart(multiset(v.Contents()), before);
    SurvivorsFit(slots, h, v.Contents());
  }

  ghost predicate Unguarded(freed: seq<Retired>, slots: Slots) {
    forall r {:trigger Guards(slots, r.p)} | r in freed :: !Guards(slots, r.p)
  }

  lemma SplitUnguarded(before: multiset<Retired>, slots: Slots, kept: multiset<Retired>, freed: seq<Retired>)
    requires Split(before, slots, kept, multiset(freed))
    ensures Unguarded(freed, slots)
  {
    forall r | r in freed ensures !Guards(slots, r.p) {
      assert r in multiset(freed);
    }
  }

  /** One inherited pointer: it is pushed, and a scan makes room when the array is full. The push asserts that the
      array was not full before: ok tells whether that is so. */
  method InheritOne(list: seq<HazardRecord>, r: Retired, dest: RetiredVector, inplace: bool, ghost slots: Slots,
                    ghost h: nat)
    returns (ok: bool, freed: seq<Retired>)
    requires Settled(dest, slots, h) && Sized(list, slots, h)
    requires Distinct(multiset(dest.Contents() + [r]))
    modifies dest, dest.arr
    ensures Settled(dest, slots, h) && Unguarded(freed, slots)
    ensures ok <==> old(!dest.IsFull())
    ensures if ok then multiset(dest.Contents()) + multiset(freed) == multiset(old(dest.Contents()) + [r])
            else dest.IsFull()
  {
    freed := [];
    if dest.IsFull() {
      return false, freed;
    }
    ok := true;
    dest.Push(r);
    if dest.IsFull() {
      ghost var before := multiset(dest.Contents());
      freed := Scan(list, dest, inplace, slots, h);
      SplitUnguarded(before, slots, multiset(dest.Contents()), freed);
    }
  }

  /** The first i of the other record's pointers have moved. */
  ghost predicate Moved(dest: RetiredVector, freed: seq<Retired>, mine: multiset<Retired>, theirs: seq<Retired>, i: nat,
                        slots: Slots, h: nat)
    requires i <= |theirs|
    reads dest, dest.arr
  {
    && Settled(dest, slots, h) && Unguarded(freed, slots)
    && multiset(dest.Contents()) + multiset(freed) == mine + multiset(theirs[..i])
  }

  method InheritTurn(list: seq<HazardRecord>, r: Retired, dest: RetiredVector, inplace: bool, ghost slots: Slots,
                     ghost h: nat, freed: seq<Retired>, ghost mine: multiset<Retired>, ghost theirs: seq<Retired>,
                     ghost i: nat)
    returns (ok: bool, freed': seq<Retired>)
    requires i < |theirs| && theirs[i] == r && Distinct(mine + multiset(theirs))
    requires Moved(dest, freed, mine, theirs, i, slots, h) && Sized(list, slots, h)
    modifies dest, dest.arr
    ensures Settled(dest, slots, h) && Unguarded(freed', slots)
    ensures if ok then Moved(dest, freed', mine, theirs, i + 1, slots, h) else dest.IsFull()
  {
    ghost var held := dest.Contents();
    Conserved(held, freed, mine, theirs, i);
    Taken(theirs, i + 1, multiset(held + [r]), multiset(freed), mine);
    var more;
    ok, more := InheritOne(list, r, dest, inplace, slots, h);
    freed' := freed + more;
    if ok {
      Freeing(multiset(dest.Contents()), freed, more, multiset(held + [r]), mine + multiset(theirs[..i + 1]));
    }
  }

  lemma Freeing(dest: multiset<Retired>, freed: seq<Retired>, more: seq<Retired>, held: multiset<Retired>,
                all: multiset<Retired>)
    requires dest + multiset(more) == held && held + multiset(freed) == all
    ensures dest + multiset(freed + more) == all
  {
    assert multiset(freed + more) == multiset(freed) + multiset(more);
  }

  /** The inner loop of HelpScan: every pointer of src moves to dest, which is scanned whenever it is full. It fails
      when a push meets a full array. */
  method Inherit(list: seq<HazardRecord>, src: RetiredVector, dest: RetiredVector, inplace: bool,
                 ghost slots: Slots, ghost h: nat)
    returns (ok: bool, freed: seq<Retired>)
    requires src.Valid() && src != dest && src.arr != dest.arr
    requires Settled(dest, slots, h) && Sized(list, slots, h)
    requires Distinct(multiset(dest.Contents()) + multiset(src.Contents()))
    modifies src, dest, dest.arr
    ensures Settled(dest, slots, h) && Unguarded(freed, slots)
    ensures ok ==> src.Valid() && src.Contents() == []
    ensures ok ==>
              multiset(dest.Contents()) + multiset(freed) == old(multiset(dest.Contents()) + multiset(src.Contents()))
    ensures !ok ==> dest.IsFull()
  {
    ghost var mine, theirs := multiset(dest.Contents()), src.Contents();
    freed := [];
    ok := true;
    for i := 0 to src.size
      invariant src.Valid() && src.Contents() == theirs && Sized(list, slots, h)
      invariant Moved(dest, freed, mine, theirs, i, slots, h)
    {
      ok, freed := InheritTurn(list, src.arr[i], dest, inplace, slots, h, freed, mine, theirs, i);
      if !ok {
        return;
      }
    }
    assert theirs[..|theirs|] == theirs;
    src.Clear();
  }

  lemma Taken(theirs: seq<Retired>, i: nat, dest: multiset<Retired>, freed: multiset<Retired>, mine: multiset<Retired>)
    requires i <= |theirs| && Distinct(mine + multiset(theirs))
    requires dest + freed == mine + multiset(theirs[..i])
    ensures Distinct(dest)
  {
    assert theirs == theirs[..i] + theirs[i..];
    assert multiset(theirs) == multiset(theirs[..i]) + multiset(theirs[i..]);
    forall r ensures dest[r] <= (mine + multiset(theirs))[r] {
      assert (dest + freed)[r] == (mine + multiset(theirs[..i]))[r];
    }
    DistinctPart(dest, mine + multiset(theirs));
  }

  /** One more pointer has moved. */
  lemma Conserved(dest: seq<Retired>, freed: seq<Retired>, mine: multiset<Retired>, theirs: seq<Retired>, i: nat)
    requires i < |theirs| && multiset(dest) + multiset(freed) == mine + multiset(theirs[..i])
    ensures multiset(dest + [theirs[i]]) + multiset(freed) == mine + multiset(theirs[..i + 1])
  {
    var one := multiset{theirs[i]};
    assert theirs[..i + 1] == theirs[..i] + [theirs[i]];
    assert multiset(dest + [theirs[i]]) == multiset(dest) + one;
    assert multiset(theirs[..i + 1]) == multiset(theirs[..i]) + one;
    var a, b, c, d := multiset(dest), multiset(freed), mine, multiset(theirs[..i]);
    assert (a + one) + b == (a + b) + one == (c + d) + one == c + (d + one);
  }

  // ---------------------------------------------------------------- HelpScan

  /** What other threads do while HelpScan looks at the records: which threads are alive, which records
      another helper takes first, and which ones their owner leaves between the load and the swap. */
  datatype World = World(alive: set<Tid>, lost: set<int>, released: set<int>)

  /** Whether HelpScan obtains the i-th record: one with nothing to inherit is skipped; an abandoned one
      is taken unless another helper is faster; one in use is taken only if its owner just left it. */
  predicate Obtains(w: World, i: int, isFree: bool, owner: Tid) {
    !isFree && if owner == NOBODY || owner !in w.alive then i !in w.lost else i in w.released
  }

  /** A record's state at the start. */
  datatype Was = Was(owner: Tid, isFree: bool, contents: seq<Retired>)

  predicate Takes(w: World, i: int, was: Was) {
    Obtains(w, i, was.isFree, was.owner)
  }

  /** All retired pointers of the records that HelpScan obtains among the first n. */
  ghost function Gathered(w: World, was: seq<Was>, n: nat): multiset<Retired>
    requires n <= |was|
  {
    if n == 0 then multiset{}
    else Gathered(w, was, n - 1) + if Takes(w, n - 1, was[n - 1]) then multiset(was[n - 1].contents) else multiset{}
  }

  /** All retired pointers of the first n records but those of the helper itself. */
  ghost function Pending(was: seq<Was>, me: int, n: nat): multiset<Retired>
    requires n <= |was|
  {
    if n == 0 then multiset{}
    else Pending(was, me, n - 1) + if n - 1 != me then multiset(was[n - 1].contents) else multiset{}
  }

  /** The records have nothing in common, and the hazard slots and arrays have the configured sizes. */
  ghost predicate Separate(list: seq<HazardRecord>) {
    forall i, j | 0 <= i < j < |list| ::
      list[i] != list[j] && list[i].retired != list[j].retired && list[i].retired.arr != list[j].retired.arr
  }

  /** A record as it was, or emptied for reuse. */
  ghost predicate Unchanged(rec: HazardRecord, was: Was)
    reads rec, rec.retired, rec.retired.arr
  {
    rec.retired.Valid() && rec.retired.Contents() == was.contents && rec.owner == was.owner && rec.isFree == was.isFree
  }

  ghost predicate Emptied(rec: HazardRecord)
    reads rec, rec.retired, rec.retired.arr
  {
    Unchanged(rec, Was(NOBODY, true, []))
  }

  /** What HelpScan makes of the i-th record. */
  ghost predicate Outcome(rec: HazardRecord, w: World, i: int, was: Was)
    reads rec, rec.retired, rec.retired.arr
  {
    if Takes(w, i, was) then Emptied(rec) else Unchanged(rec, was)
  }

  /** One record of the list. It fails when the helper's array is full, which the code asserts it is not. */
  method HelpOne(list: seq<HazardRecord>, i: int, me: HazardRecord, cur: Tid, w: World, inplace: bool,
                 ghost slots: Slots, ghost h: nat, ghost was: Was)
    returns (ok: bool, freed: seq<Retired>)
    requires 0 <= i < |list| && Unchanged(list[i], was) && Settled(me.retired, slots, h) && Sized(list, slots, h)
    requires list[i] != me ==> list[i].retired != me.retired && list[i].retired.arr != me.retired.arr
    requires list[i] == me ==> !Takes(w, i, was)
    requires list[i] != me ==> Distinct(multiset(me.retired.Contents()) + multiset(was.contents))
    modifies list[i], list[i].retired, me.retired, me.retired.arr
    ensures Settled(me.retired, slots, h) && Unguarded(freed, slots)
    ensures list[i] != me ==> me.owner == old(me.owner) && me.isFree == old(me.isFree)
    ensures ok ==> Outcome(list[i], w, i, was)
    ensures ok ==>
              multiset(me.retired.Contents()) + multiset(freed) ==
                multiset(old(me.retired.Contents())) + if Takes(w, i, was) then multiset(was.contents) else multiset{}
    ensures !ok ==> me.retired.IsFull()
    ensures Takes(w, i, was) && old(me.retired.IsFull()) ==>
              !ok && freed == [] && Unchanged(list[i], was.(owner := cur))
  {
    ok, freed := true, [];
    var rec := list[i];
    if rec.isFree {
      return;
    }
    var owner := rec.owner;
    if owner == NOBODY || owner !in w.alive {
      if i in w.lost {
        return;
      }
    } else if i !in w.released {
      return;
    }
    rec.owner := cur;
    if me.retired.IsFull() {
      return false, freed;
    }
    ok, freed := Inherit(list, rec.retired, me.retired, inplace, slots, h);
    if ok {
      rec.isFree := true;
      rec.owner := NOBODY;
    }
  }

  /** The pointers gathered from the first i records and those of record i are part of all. */
  lemma {:induction false} GatheredPart(w: World, was: seq<Was>, me: int, n: nat)
    requires n <= |was|
    requires 0 <= me < n ==> !Takes(w, me, was[me])
    ensures Gathered(w, was, n) <= Pending(was, me, n)
  {
    if n > 0 {
      GatheredPart(w, was, me, n - 1);
    }
  }

  lemma GatherStep(w: World, was: seq<Was>, i: nat)
    requires i < |was|
    ensures Gathered(w, was, i + 1) ==
              Gathered(w, was, i) + if Takes(w, i, was[i]) then multiset(was[i].contents) else multiset{}
  {
  }

  lemma {:induction false} PendingGrows(was: seq<Was>, me: int, m: nat, n: nat)
    requires m <= n <= |was|
    ensures Pending(was, me, m) <= Pending(was, me, n)
  {
    if m < n {
      PendingGrows(was, me, m, n - 1);
    }
  }

  lemma NextPart(was: seq<Was>, me: nat, i: nat)
    requires i < |was| && i != me
    ensures Pending(was, me, i) + multiset(was[i].contents) <= Pending(was, me, |was|)
  {
    PendingGrows(was, me, i + 1, |was|);
  }

  lemma StillPart(w: World, was: seq<Was>, me: nat, i: nat, mine: multiset<Retired>, dest: multiset<Retired>,
                  freed: multiset<Retired>)
    requires me < |was| && i < |was| && i != me && !Takes(w, me, was[me])
    requires dest + freed == mine + Gathered(w, was, i)
    ensures dest + multiset(was[i].contents) <= mine + Pending(was, me, |was|)
  {
    GatheredPart(w, was, me, i);
    NextPart(was, me, i);
    Fits(mine, dest, freed, Gathered(w, was, i), Pending(was, me, i), multiset(was[i].contents),
         Pending(was, me, |was|));
  }

  /** What the helper holds after i records, together with the next record's pointers, has no duplicates. */
  lemma StillDistinct(w: World, was: seq<Was>, me: nat, i: nat, mine: multiset<Retired>, dest: multiset<Retired>,
                      freed: multiset<Retired>)
    requires me < |was| && i < |was| && i != me && !Takes(w, me, was[me])
    requires Distinct(mine + Pending(was, me, |was|))
    requires dest + freed == mine + Gathered(w, was, i)
    ensures Distinct(dest + multiset(was[i].contents))
  {
    StillPart(w, was, me, i, mine, dest, freed);
    DistinctPart(dest + multiset(was[i].contents), mine + Pending(was, me, |was|));
  }

  lemma Fits(mine: multiset<Retired>, dest: multiset<Retired>, freed: multiset<Retired>, gathered: multiset<Retired>,
             before: multiset<Retired>, next: multiset<Retired>, all: multiset<Retired>)
    requires dest + freed == mine + gathered && gathered <= before && before + next <= all
    ensures dest + next <= mine + all
  {
    forall r ensures (dest + next)[r] <= (mine + all)[r] {
      assert dest[r] + freed[r] == (dest + freed)[r] == (mine + gathered)[r] == mine[r] + gathered[r];
      assert (before + next)[r] == before[r] + next[r];
    }
  }

  /** The records before i are dealt with, those after it untouched. */
  ghost predicate Reached(list: seq<HazardRecord>, me: nat, w: World, was: seq<Was>, i: nat)
    requires |was| == |list|
    reads set k | 0 <= k < |list| :: list[k]
    reads set k | 0 <= k < |list| :: list[k].retired
    reads set k | 0 <= k < |list| :: list[k].retired.arr
  {
    && (forall k | 0 <= k < i && k < |list| && k != me :: Outcome(list[k], w, k, was[k]))
    && (forall k | i <= k < |list| && k != me :: Unchanged(list[k], was[k]))
  }

  lemma Apart(list: seq<HazardRecord>, i: nat, k: nat)
    requires Separate(list) && i < |list| && k < |list| && i != k
    ensures list[i] != list[k] && list[i].retired != list[k].retired && list[i].retired.arr != list[k].retired.arr
  {
  }

  method HelpNext(list: seq<HazardRecord>, i: nat, me: nat, cur: Tid, w: World, inplace: bool,
                  ghost slots: Slots, ghost h: nat, ghost was: seq<Was>, ghost now: Was)
    returns (ok: bool, freed: seq<Retired>)
    requires me < |list| && i < |list| && Separate(list) && |was| == |list| && Reached(list, me, w, was, i)
    requires Settled(list[me].retired, slots, h) && Sized(list, slots, h)
    requires Unchanged(list[i], now) && (i != me ==> now == was[i]) && (i == me ==> !Takes(w, me, now))
    requires i != me ==> Distinct(multiset(list[me].retired.Contents()) + multiset(now.contents))
    modifies list[i], list[i].retired, list[me].retired, list[me].retired.arr
    ensures Settled(list[me].retired, slots, h) && Unguarded(freed, slots)
    ensures !ok ==> list[me].retired.IsFull()
    ensures ok ==> Reached(list, me, w, was, i + 1)
    ensures ok ==> list[me].owner == old(list[me].owner) && list[me].isFree == old(list[me].isFree)
    ensures ok ==>
              multiset(list[me].retired.Contents()) + multiset(freed) ==
                multiset(old(list[me].retired.Contents()))
                + if Takes(w, i, now) then multiset(now.contents) else multiset{}
  {
    if i != me {
      Apart(list, i, me);
    }
    ok, freed := HelpOne(list, i, list[me], cur, w, inplace, slots, h, now);
    forall k: nat | k < |list| && k != me && k != i
      ensures if k < i then Outcome(list[k], w, k, was[k]) else Unchanged(list[k], was[k])
    {
      Apart(list, i, k);
      Apart(list, me, k);
    }
  }

  /** The books balance after one more record. */
  lemma Balance(start: multiset<Retired>, gathered: multiset<Retired>, x: multiset<Retired>,
                held: multiset<Retired>, freed: seq<Retired>, held': multiset<Retired>, more: seq<Retired>)
    requires held + multiset(freed) == start + gathered
    requires held' + multiset(more) == held + x
    ensures held' + multiset(freed + more) == start + (gathered + x)
  {
    var f, m := multiset(freed), multiset(more);
    assert multiset(freed + more) == f + m;
    assert held' + (f + m) == (held' + m) + f == (held + x) + f == (held + f) + x;
    assert (start + gathered) + x == start + (gathered + x);
  }

  /** The state of HelpScan before record i. */
  ghost predicate HelpInv(list: seq<HazardRecord>, me: nat, cur: Tid, w: World, was: seq<Was>, slots: Slots, h: nat,
                          freed: seq<Retired>, i: nat)
    requires me < |list| && |was| == |list| && i <= |list|
    reads set k | 0 <= k < |list| :: list[k]
    reads set k | 0 <= k < |list| :: list[k].retired
    reads set k | 0 <= k < |list| :: list[k].retired.arr
    reads HazardArrays(list)
  {
    && Reached(list, me, w, was, i)
    && list[me].owner == cur && list[me].isFree == was[me].isFree
    && Settled(list[me].retired, slots, h) && Sized(list, slots, h) && Unguarded(freed, slots)
    && multiset(list[me].retired.Contents()) + multiset(freed) == multiset(was[me].contents) + Gathered(w, was, i)
  }

  /** The helper's array is full of guarded pointers. */
  ghost predicate Jammed(v: RetiredVector, slots: Slots, h: nat)
    reads v, v.arr
  {
    Settled(v, slots, h) && v.IsFull()
  }

  method HelpTurn(list: seq<HazardRecord>, i: nat, me: nat, cur: Tid, w: World, inplace: bool,
                  ghost slots: Slots, ghost h: nat, ghost was: seq<Was>, freed: seq<Retired>)
    returns (ok: bool, freed': seq<Retired>)
    requires me < |list| && i < |list| && Separate(list) && |was| == |list|
    requires HelpInv(list, me, cur, w, was, slots, h, freed, i)
    requires Helper(w, me, cur, was[me])
    requires Distinct(multiset(was[me].contents) + Pending(was, me, |was|))
    modifies list[i], list[i].retired, list[me].retired, list[me].retired.arr
    ensures ok ==> HelpInv(list, me, cur, w, was, slots, h, freed', i + 1)
    ensures !ok ==> Jammed(list[me].retired, slots, h) && Unguarded(freed', slots)
  {
    var mine := list[me];
    ghost var start, held := multiset(was[me].contents), multiset(mine.retired.Contents());
    ghost var now := if i == me then Was(cur, mine.isFree, mine.retired.Contents()) else was[i];
    if i != me {
      StillDistinct(w, was, me, i, start, held, multiset(freed));
    }
    var more;
    ok, more := HelpNext(list, i, me, cur, w, inplace, slots, h, was, now);
    freed' := freed + more;
    if ok {
      Balance(start, Gathered(w, was, i), if Takes(w, i, now) then multiset(now.contents) else multiset{},
              held, freed, multiset(mine.retired.Contents()), more);
      GatherStep(w, was, i);
    }
  }

  /** The helper's own record is in use by a living thread, which is busy helping. */
  ghost predicate Helper(w: World, me: nat, cur: Tid, was: Was) {
    cur in w.alive && cur != NOBODY && was.owner == cur && me !in w.released
  }

  /** HelpScan's loop over the records. */
  method HelpAll(list: seq<HazardRecord>, me: nat, cur: Tid, w: World, inplace: bool,
                 ghost slots: Slots, ghost h: nat, ghost was: seq<Was>)
    returns (ok: bool, freed: seq<Retired>)
    requires me < |list| && Separate(list) && |was| == |list|
    requires HelpInv(list, me, cur, w, was, slots, h, [], 0) && Helper(w, me, cur, was[me])
    requires Distinct(multiset(was[me].contents) + Pending(was, me, |was|))
    modifies set i | 0 <= i < |list| :: list[i]
    modifies set i | 0 <= i < |list| :: list[i].retired
    modifies list[me].retired.arr
    ensures ok ==> HelpInv(list, me, cur, w, was, slots, h, freed, |list|)
    ensures !ok ==> Jammed(list[me].retired, slots, h) && Unguarded(freed, slots)
  {
    ok, freed := true, [];
    for i := 0 to |list|
      invariant HelpInv(list, me, cur, w, was, slots, h, freed, i)
    {
      ok, freed := HelpTurn(list, i, me, cur, w, inplace, slots, h, was, freed);
      if !ok {
        return;
      }
    }
  }

  /** HelpScan loses nothing: every retired pointer of the records it obtains ends up once, in the helper's own
      array or freed, and only unguarded pointers are freed. The records obtained are left empty and free, the
      others as they were. It fails only with the helper's array full of guarded pointers, so never when the array
      has more places than there are hazard slots; then the array has room again afterwards. */
  method HelpScan(list: seq<HazardRecord>, me: nat, cur: Tid, w: World, inplace: bool,
                  ghost slots: Slots, ghost h: nat, ghost was: seq<Was>)
    returns (ok: bool, freed: seq<Retired>)
    requires me < |list| && Separate(list) && |was| == |list|
    requires forall i | 0 <= i < |list| :: Unchanged(list[i], was[i])
    requires Helper(w, me, cur, was[me])
    requires Settled(list[me].retired, slots, h) && Sized(list, slots, h)
    requires Distinct(multiset(was[me].contents) + Pending(was, me, |was|))
    modifies set i | 0 <= i < |list| :: list[i]
    modifies set i | 0 <= i < |list| :: list[i].retired
    modifies list[me].retired.arr
    ensures Unguarded(freed, slots) && Settled(list[me].retired, slots, h)
    ensures |slots| * h < list[me].retired.arr.Length ==> ok && !list[me].retired.IsFull()
    ensures ok ==> forall i | 0 <= i < |list| && i != me :: Outcome(list[i], w, i, was[i])
    ensures ok ==> list[me].owner == cur && list[me].isFree == was[me].isFree
    ensures ok ==>
              multiset(list[me].retired.Contents()) + multiset(freed) ==
                multiset(was[me].contents) + Gathered(w, was, |was|)
    ensures !ok ==> list[me].retired.IsFull()
  {
    ok, freed := HelpAll(list, me, cur, w, inplace, slots, h, was);
  }

  // ---------------------------------------------------------------- retiring a pointer

  lemma {:induction false} OwnPendingApart(was: seq<Was>, me: nat, now: Was, n: nat)
    requires me < |was| && n <= |was|
    ensures Pending(was[me := now], me, n) == Pending(was, me, n)
  {
    if n > 0 {
      OwnPendingApart(was, me, now, n - 1);
      assert n - 1 != me ==> was[me := now][n - 1] == was[n - 1];
    }
  }

  lemma {:induction false} OwnRecordApart(w: World, was: seq<Was>, me: nat, now: Was, n: nat)
    requires me < |was| && n <= |was| && !Takes(w, me, was[me]) && !Takes(w, me, now)
    ensures Gathered(w, was[me := now], n) == Gathered(w, was, n)
  {
    if n > 0 {
      OwnRecordApart(w, was, me, now, n - 1);
      assert n - 1 != me ==> was[me := now][n - 1] == was[n - 1];
    }
  }

  lemma LargerDistinct(held: multiset<Retired>, freed: multiset<Retired>, before: multiset<Retired>,
                       others: multiset<Retired>)
    requires held + freed == before && Distinct(before + others)
    ensures Distinct(held + others)
  {
    forall r ensures (held + others)[r] <= (before + others)[r] {
      assert (held + freed)[r] == before[r];
    }
    DistinctPart(held + others, before + others);
  }

  lemma Whole(held: multiset<Retired>, freed: seq<Retired>, before: multiset<Retired>, gathered: multiset<Retired>,
              held': multiset<Retired>, more: seq<Retired>)
    requires held + multiset(freed) == before && held' + multiset(more) == held + gathered
    ensures held' + multiset(freed + more) == before + gathered
  {
    var f, m := multiset(freed), multiset(more);
    assert multiset(freed + more) == f + m;
    assert held' + (f + m) == (held' + m) + f == (held + gathered) + f == (held + f) + gathered;
  }

  /** The scan leaves all other records as they were. */
  method ScanOwn(list: seq<HazardRecord>, me: nat, inplace: bool, ghost slots: Slots, ghost h: nat, ghost was: seq<Was>)
    returns (freed: seq<Retired>, ghost now: Was)
    requires me < |list| && Separate(list) && |was| == |list| && Sized(list, slots, h)
    requires forall i | 0 <= i < |list| :: Unchanged(list[i], was[i])
    requires Distinct(multiset(was[me].contents) + Pending(was, me, |was|))
    modifies list[me].retired, list[me].retired.arr
    ensures now == was[me].(contents := now.contents)
    ensures forall i | 0 <= i < |list| :: Unchanged(list[i], was[me := now][i])
    ensures Unguarded(freed, slots) && Settled(list[me].retired, slots, h)
    ensures multiset(now.contents) + multiset(freed) == multiset(was[me].contents)
  {
    var mine := list[me];
    ghost var before := multiset(was[me].contents);
    DistinctPart(before, before + Pending(was, me, |was|));
    freed := Scan(list, mine.retired, inplace, slots, h);
    SplitUnguarded(before, slots, multiset(mine.retired.Contents()), freed);
    now := was[me].(contents := mine.retired.Contents());
    forall i: nat | i < |list| ensures Unchanged(list[i], was[me := now][i]) {
      if i != me {
        Apart(list, i, me);
      }
    }
  }

  /** What remains of retirePtr when the array is full: a scan, then help for abandoned records. */
  method ScanAndHelp(list: seq<HazardRecord>, me: nat, cur: Tid, w: World, inplace: bool,
                     ghost slots: Slots, ghost h: nat, ghost was: seq<Was>)
    returns (ok: bool, freed: seq<Retired>)
    requires me < |list| && Separate(list) && |was| == |list|
    requires forall i | 0 <= i < |list| :: Unchanged(list[i], was[i])
    requires Helper(w, me, cur, was[me]) && Sized(list, slots, h)
    requires Distinct(multiset(was[me].contents) + Pending(was, me, |was|))
    modifies set i | 0 <= i < |list| :: list[i]
    modifies set i | 0 <= i < |list| :: list[i].retired
    modifies list[me].retired.arr
    ensures Unguarded(freed, slots) && Settled(list[me].retired, slots, h)
    ensures |slots| * h < list[me].retired.arr.Length ==> ok && !list[me].retired.IsFull()
    ensures ok ==>
              multiset(list[me].retired.Contents()) + multiset(freed) ==
                multiset(was[me].contents) + Gathered(w, was, |was|)
    ensures !ok ==> list[me].retired.IsFull()
  {
    var mine := list[me];
    ghost var before := multiset(was[me].contents);
    ghost var now;
    freed, now := ScanOwn(list, me, inplace, slots, h, was);
    OwnPendingApart(was, me, now, |was|);
    OwnRecordApart(w, was, me, now, |was|);
    LargerDistinct(multiset(now.contents), multiset(freed), before, Pending(was, me, |was|));
    var more;
    ok, more := HelpScan(list, me, cur, w, inplace, slots, h, was[me := now]);
    if ok {
      Whole(multiset(now.contents), freed, before, Gathered(w, was, |was|), multiset(mine.retired.Contents()), more);
    }
    freed := freed + more;
  }

  // ---------------------------------------------------------------- obtaining and leaving a record

  /** The collector's list of records, the newest first; records are never removed. */
  class RecordList {
    var list: seq<HazardRecord>
    const slots: nat
    const capacity: nat

    constructor (slots: nat, capacity: nat)
      ensures list == [] && this.slots == slots && this.capacity == capacity
    {
      list := [];
      this.slots, this.capacity := slots, capacity;
    }

    /** AllocateHPRec: takes over a record that nobody owns, with the retired pointers it still holds, unless other
        threads are faster at each of them (lost); otherwise adds a new one at the head. */
    method Allocate(cur: Tid, lost: set<int>) returns (rec: HazardRecord)
      modifies this`list, set i | 0 <= i < |list| :: list[i]
      ensures rec in list && rec.owner == cur && !rec.isFree
      ensures rec in old(list) ==> list == old(list) && old(rec.owner) == NOBODY
      ensures rec !in old(list) ==> fresh(rec) && list == [rec] + old(list)
      ensures rec !in old(list) ==> rec.retired.Valid() && rec.retired.Contents() == []
      ensures rec !in old(list) ==> rec.hazards.Length == slots && rec.retired.arr.Length == capacity
      ensures rec !in old(list) ==> forall k | 0 <= k < slots :: rec.hazards[k] == 0
      ensures rec !in old(list) ==> forall i | 0 <= i < |old(list)| && i !in lost :: old(list[i].owner) != NOBODY
      ensures forall r | r in old(list) && r != rec :: r.owner == old(r.owner) && r.isFree == old(r.isFree)
    {
      for i := 0 to |list|
        invariant list == old(list)
        invariant forall r | r in list :: r.owner == old(r.owner) && r.isFree == old(r.isFree)
        invariant forall k | 0 <= k < i && k !in lost :: list[k].owner != NOBODY
      {
        if list[i].owner == NOBODY && i !in lost {
          rec := list[i];
          rec.owner := cur;
          rec.isFree := false;
          return;
        }
      }
      rec := new HazardRecord(cur, slots, capacity);
      list := [rec] + list;
    }

    /** RetireHPRec: the slots are cleared, the retired pointers stay for whoever takes or helps the record. */
    method Retire(rec: HazardRecord)
      requires rec in list
      modifies rec, rec.hazards
      ensures rec.owner == NOBODY && rec.isFree == old(rec.isFree)
      ensures forall k | 0 <= k < rec.hazards.Length :: rec.hazards[k] == 0
    {
      rec.ClearHazards();
      rec.owner := NOBODY;
    }
  }
}
