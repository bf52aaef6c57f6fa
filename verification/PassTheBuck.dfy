/** The pass-the-buck collector: retired pointers that a guard still posts are handed off to the guard,
    and come back for a later attempt when the guard has moved on. */
module PassTheBuck {
  import opened Options
  import opened RetiredPointers

  /** A guard: the pointer it posts, 0 when free, and the retired pointer trapped in it. */
  class GuardData {
    var post: nat
    var handOff: Option<Retired>

    constructor ()
      ensures post == 0 && handOff == None
    {
      post, handOff := 0, None;
    }
  }

  // ---------------------------------------------------------------- what is pending

  ghost function One(x: Option<Retired>): multiset<Retired> {
    if x.Some? then multiset{x.value} else multiset{}
  }

  /** The trapped pointers. */
  ghost function Trapped(hs: seq<Option<Retired>>): multiset<Retired> {
    if hs == [] then multiset{} else One(hs[0]) + Trapped(hs[1..])
  }

  lemma {:induction false} TrappedUpdate(hs: seq<Option<Retired>>, i: nat, x: Option<Retired>)
    requires i < |hs|
    ensures Trapped(hs[i := x]) + One(hs[i]) == Trapped(hs) + One(x)
  {
    var rest := hs[1..];
    if i == 0 {
      assert hs[i := x][1..] == rest;
      Swap(One(x), Trapped(rest), One(hs[0]));
    } else {
      assert hs[i := x][1..] == rest[i - 1 := x];
      TrappedUpdate(rest, i - 1, x);
      AddFront(One(hs[0]), Trapped(rest[i - 1 := x]), One(hs[i]), Trapped(rest), One(x));
    }
  }

  lemma Swap(a: multiset<Retired>, t: multiset<Retired>, b: multiset<Retired>)
    ensures (a + t) + b == (b + t) + a
  {
  }

  lemma AddFront(a: multiset<Retired>, t: multiset<Retired>, o: multiset<Retired>, t': multiset<Retired>,
                 x: multiset<Retired>)
    requires t + o == t' + x
    ensures (a + t) + o == (a + t') + x
  {
    assert (a + t) + o == a + (t + o) == a + (t' + x) == (a + t') + x;
  }

  lemma {:induction false} TrappedHolds(hs: seq<Option<Retired>>, i: nat)
    requires i < |hs| && hs[i].Some?
    ensures hs[i].value in Trapped(hs)
  {
    if i > 0 {
      TrappedHolds(hs[1..], i - 1);
    }
  }

  lemma {:induction false} TrappedComesFrom(hs: seq<Option<Retired>>, r: Retired)
    requires r in Trapped(hs)
    ensures exists i :: 0 <= i < |hs| && hs[i] == Some(r)
  {
    if hs[0] == Some(r) {
      assert hs[0] == Some(r);
    } else {
      TrappedComesFrom(hs[1..], r);
      var i :| 0 <= i < |hs[1..]| && hs[1..][i] == Some(r);
      assert hs[i + 1] == Some(r);
    }
  }

  /** The values that the guards post. */
  ghost function Posted(vals: seq<nat>): set<nat> {
    set v | v in vals && v != 0
  }

  /** Insertion into the set, which holds one pointer for an address. */
  function Insert(s: set<Retired>, h: Retired): set<Retired> {
    if exists r :: r in s && r.p == h.p then s else s + {h}
  }

  // ---------------------------------------------------------------- the loop over the guards

  /** The guards before i are examined: done are the values they post. Every pending pointer is either still
      in the set to free, trapped in a guard, or pushed back; nothing in the set is posted by an examined guard,
      and the examined guards trap, and push back, only what one of them posts. */
  ghost predicate LoopInv(total: multiset<Retired>, s: set<Retired>, hs: seq<Option<Retired>>, pushed: seq<Retired>,
                          done: set<nat>, i: nat) {
    && multiset(s) + Trapped(hs) + multiset(pushed) == total
    && (forall r | r in s :: r.p !in done)
    && (forall j | 0 <= j < i && j < |hs| && hs[j].Some? :: hs[j].value.p in done)
    && (forall r | r in pushed :: r.p in done)
  }

  lemma StepKeeps(total: multiset<Retired>, s: set<Retired>, hs: seq<Option<Retired>>, pushed: seq<Retired>,
                  done: set<nat>,
                  i: nat, s': set<Retired>, x: Option<Retired>, pushed': seq<Retired>, done': set<nat>)
    requires LoopInv(total, s, hs, pushed, done, i) && i < |hs| && done <= done'
    requires multiset(s') + One(x) + multiset(pushed') == multiset(s) + One(hs[i]) + multiset(pushed)
    requires forall r | r in s' :: r.p !in done'
    requires x.Some? ==> x.value.p in done'
    requires forall r | r in pushed' :: r.p in done'
    ensures LoopInv(total, s', hs[i := x], pushed', done', i + 1)
  {
    TrappedUpdate(hs, i, x);
    Exchange(multiset(s), One(hs[i]), multiset(pushed), Trapped(hs), multiset(s'), One(x), multiset(pushed'),
             Trapped(hs[i := x]));
  }

  lemma Exchange(s: multiset<Retired>, o: multiset<Retired>, p: multiset<Retired>, t: multiset<Retired>,
                 s': multiset<Retired>, o': multiset<Retired>, p': multiset<Retired>, t': multiset<Retired>)
    requires s' + o' + p' == s + o + p && t' + o == t + o'
    ensures s' + t' + p' == s + t + p
  {
    forall r ensures (s' + t' + p')[r] == (s + t + p)[r] {
      assert (s' + o' + p')[r] == (s + o + p)[r] && (t' + o)[r] == (t + o')[r];
    }
  }

  /** Pending pointers with one address are one and the same: a trapped pointer is neither in the set nor
      at the address of a pointer in the set. */
  lemma TrappedApart(total: multiset<Retired>, s: set<Retired>, hs: seq<Option<Retired>>, pushed: seq<Retired>,
                     i: nat, r: Retired)
    requires multiset(s) + Trapped(hs) + multiset(pushed) == total && Distinct(total)
    requires i < |hs| && hs[i].Some? && r in s
    ensures hs[i].value.p != r.p
  {
    var h := hs[i].value;
    TrappedHolds(hs, i);
    assert total[h] == multiset(s)[h] + Trapped(hs)[h] + multiset(pushed)[h];
    assert total[r] == multiset(s)[r] + Trapped(hs)[r] + multiset(pushed)[r];
    assert h in total && r in total;
  }

  lemma NoneTrapped(total: multiset<Retired>, s: set<Retired>, hs: seq<Option<Retired>>, pushed: seq<Retired>, i: nat)
    requires multiset(s) + Trapped(hs) + multiset(pushed) == total && Distinct(total) && i < |hs|
    ensures hs[i].Some? ==> forall r | r in s :: r.p != hs[i].value.p
  {
    if hs[i].Some? {
      forall r | r in s ensures r.p != hs[i].value.p {
        TrappedApart(total, s, hs, pushed, i, r);
      }
    }
  }

  lemma TakeOut(s: set<Retired>, r: Retired)
    requires r in s
    ensures multiset(s - {r}) + multiset{r} == multiset(s)
  {
  }

  lemma PutIn(s: set<Retired>, h: Retired)
    requires h !in s
    ensures multiset(s + {h}) == multiset(s) + multiset{h}
  {
  }

  /** What trapping a pointer found in the set does to the set and to the pointers pushed back. */
  ghost predicate Traps(h: Option<Retired>, s: set<Retired>, pushed: seq<Retired>, done: set<nat>, found: Retired,
                        s': set<Retired>, pushed': seq<Retired>) {
    if h == None then s' == s - {found} && pushed' == pushed
    else if h.value.p !in done then s' == s - {found} + {h.value} && pushed' == pushed
    else s' == s - {found} && pushed' == [h.value] + pushed
  }

  lemma TrapsConserves(h: Option<Retired>, s: set<Retired>, pushed: seq<Retired>, done: set<nat>, found: Retired,
                       s': set<Retired>, pushed': seq<Retired>)
    requires Traps(h, s, pushed, done, found, s', pushed') && found in s && (h.Some? ==> h.value !in s)
    ensures multiset(s') + multiset{found} + multiset(pushed') == multiset(s) + One(h) + multiset(pushed)
  {
    TakeOut(s, found);
    if h.Some? {
      PutIn(s - {found}, h.value);
    }
  }

  lemma FoundKeeps(total: multiset<Retired>, s: set<Retired>, hs: seq<Option<Retired>>, pushed: seq<Retired>,
                   done: set<nat>,
                   i: nat, found: Retired, s': set<Retired>, pushed': seq<Retired>)
    requires LoopInv(total, s, hs, pushed, done, i) && i < |hs| && found in s
    requires forall r | r in s && r != found :: r.p != found.p
    requires Traps(hs[i], s, pushed, done, found, s', pushed')
    requires hs[i].Some? ==> forall r | r in s :: r.p != hs[i].value.p
    ensures LoopInv(total, s', hs[i := Some(found)], pushed', done + {found.p}, i + 1)
  {
    TrapsConserves(hs[i], s, pushed, done, found, s', pushed');
    StepKeeps(total, s, hs, pushed, done, i, s', Some(found), pushed', done + {found.p});
  }

  lemma OneEach(total: multiset<Retired>, s: set<Retired>, hs: seq<Option<Retired>>, pushed: seq<Retired>, q: Retired)
    requires multiset(s) + Trapped(hs) + multiset(pushed) == total && Distinct(total) && q in s
    ensures forall r | r in s && r != q :: r.p != q.p
  {
    forall r | r in s && r != q ensures r.p != q.p {
      assert r in total && q in total;
    }
  }

  lemma ReconsiderKeeps(total: multiset<Retired>, s: set<Retired>, hs: seq<Option<Retired>>, pushed: seq<Retired>,
                        done: set<nat>,
                        i: nat, done': set<nat>, s': set<Retired>, x: Option<Retired>)
    requires LoopInv(total, s, hs, pushed, done, i) && i < |hs| && done <= done'
    requires if x == None && hs[i].Some? then s' == s + {hs[i].value} else s' == s && x == hs[i]
    requires hs[i].Some? ==> (x.Some? <==> hs[i].value.p in done')
    requires forall r | r in s :: r.p !in done' && (hs[i].Some? ==> r.p != hs[i].value.p)
    ensures LoopInv(total, s', hs[i := x], pushed, done', i + 1)
  {
    if s' != s {
      PutIn(s, hs[i].value);
    }
    StepKeeps(total, s, hs, pushed, done, i, s', x, pushed, done');
  }

  /** A pointer that is not pending yet keeps the pending pointers distinct. */
  lemma RetireOne(buffer: seq<Retired>, trapped: multiset<Retired>, r: Retired)
    requires Distinct(multiset(buffer) + trapped)
    requires forall q | q in multiset(buffer) + trapped :: q.p != r.p
    ensures multiset([r] + buffer) + trapped == multiset(buffer) + trapped + multiset{r}
    ensures Distinct(multiset([r] + buffer) + trapped)
  {
    var old', new' := multiset(buffer) + trapped, multiset([r] + buffer) + trapped;
    assert multiset([r] + buffer) == multiset{r} + multiset(buffer);
    assert new' == old' + multiset{r};
    forall a, b | a in new' && b in new' && a.p == b.p ensures a == b && new'[a] == 1 {
      assert a in old' || a == r;
      assert b in old' || b == r;
    }
  }

  lemma RestDistinct(freed: multiset<Retired>, trapped: multiset<Retired>, kept: multiset<Retired>,
                     total: multiset<Retired>)
    requires freed + trapped + kept == total && Distinct(total)
    ensures Distinct(kept + trapped)
  {
    DistinctPart(kept + trapped, total);
  }

  /** The stolen buffer becomes the set to free. */
  method Collect(stolen: seq<Retired>) returns (s: set<Retired>)
    requires Distinct(multiset(stolen))
    ensures multiset(s) == multiset(stolen)
  {
    s := {};
    for i := 0 to |stolen|
      invariant multiset(s) == multiset(stolen[..i])
    {
      assert stolen[..i + 1] == stolen[..i] + [stolen[i]];
      forall r | r in s ensures r.p != stolen[i].p {
        assert r in multiset(stolen[..i]);
        var k :| 0 <= k < i && stolen[..i][k] == r;
        DistinctPlaces(stolen, k, i);
      }
      PutIn(s, stolen[i]);
      s := Insert(s, stolen[i]);
    }
    assert stolen[..|stolen|] == stolen;
  }

  /** The pass-the-buck collector: its guards, and the buffer of retired pointers, the newest first. */
  class GarbageCollector {
    var guards: seq<GuardData>
    var buffer: seq<Retired>

    /** The guards are distinct objects and trap the given pointers. */
    ghost predicate Holds(hs: seq<Option<Retired>>, vals: seq<nat>)
      reads this, guards
    {
      && |hs| == |vals| == |guards|
      && (forall i | 0 <= i < |guards| :: guards[i].handOff == hs[i] && guards[i].post == vals[i])
      && (forall i, j | 0 <= i < j < |guards| :: guards[i] != guards[j])
    }

    /** The examined guard's trapped pointer returns to the set, unless this guard or one examined before posts it. */
    method Reconsider(g: GuardData, val: nat, s: set<Retired>, done: set<nat>) returns (s': set<Retired>)
      requires g.handOff.Some? ==> forall r | r in s :: r.p != g.handOff.value.p
      modifies g
      ensures g.post == old(g.post)
      ensures (s' == s && g.handOff == old(g.handOff))
              || (old(g.handOff).Some? && g.handOff == None && s' == s + {old(g.handOff).value})
      ensures old(g.handOff).Some? ==>
                (g.handOff.Some? <==> old(g.handOff).value.p in done || (val != 0 && old(g.handOff).value.p == val))
    {
      s' := s;
      if val != 0 {
        // It posts something that is not in the set to free.
        if g.handOff.Some? {
          if val != g.handOff.value.p && g.handOff.value.p !in done {
            s' := Insert(s, g.handOff.value);
            g.handOff := None;
          }
        }
      } else {
        // It posts nothing.
        if g.handOff.Some? && g.handOff.value.p !in done {
          s' := Insert(s, g.handOff.value);
          g.handOff := None;
        }
      }
    }

    /** The guard posts a pointer of the set: it traps that pointer, and gives up the one it trapped before. */
    method TrapFound(g: GuardData, found: Retired, s: set<Retired>, done: set<nat>, ghost pushed: seq<Retired>,
                     ghost rest: seq<Retired>)
      returns (s': set<Retired>, ghost pushed': seq<Retired>)
      requires buffer == pushed + rest && found in s
      requires g.handOff.Some? ==> forall r | r in s :: r.p != g.handOff.value.p
      modifies this`buffer, g
      ensures g.post == old(g.post) && g.handOff == Some(found)
      ensures Traps(old(g.handOff), s, pushed, done, found, s', pushed') && buffer == pushed' + rest
    {
      s', pushed' := s - {found}, pushed;
      var h := g.handOff;
      if h.Some? {
        if h.value.p != found.p {
          if h.value.p !in done {
            s' := Insert(s', h.value);
          } else {
            buffer := [h.value] + buffer;
            pushed' := [h.value] + pushed;
          }
        }
      }
      g.handOff := Some(found);
    }

    /** The guard posts a pointer of the set. */
    method ExamineFound(g: GuardData, found: Retired, s: set<Retired>, done: set<nat>, ghost total: multiset<Retired>,
                        ghost hs: seq<Option<Retired>>, ghost i: nat, ghost pushed: seq<Retired>,
                        ghost rest: seq<Retired>)
      returns (s': set<Retired>, ghost pushed': seq<Retired>)
      requires i < |hs| && g.handOff == hs[i] && buffer == pushed + rest && found in s
      requires Distinct(total) && LoopInv(total, s, hs, pushed, done, i)
      modifies this`buffer, g
      ensures g.post == old(g.post) && buffer == pushed' + rest
      ensures LoopInv(total, s', hs[i := g.handOff], pushed', done + {found.p}, i + 1)
    {
      NoneTrapped(total, s, hs, pushed, i);
      OneEach(total, s, hs, pushed, found);
      s', pushed' := TrapFound(g, found, s, done, pushed, rest);
      FoundKeeps(total, s, hs, pushed, done, i, found, s', pushed');
    }

    /** One guard of the loop. */
    method Examine(g: GuardData, s: set<Retired>, done: set<nat>, ghost total: multiset<Retired>,
                   ghost hs: seq<Option<Retired>>,
                   ghost i: nat, ghost pushed: seq<Retired>, ghost rest: seq<Retired>)
      returns (s': set<Retired>, done': set<nat>, ghost pushed': seq<Retired>)
      requires i < |hs| && g.handOff == hs[i] && buffer == pushed + rest
      requires Distinct(total) && LoopInv(total, s, hs, pushed, done, i)
      modifies this`buffer, g
      ensures g.post == old(g.post) && buffer == pushed' + rest
      ensures LoopInv(total, s', hs[i := g.handOff], pushed', done', i + 1)
      ensures done' == done + if g.post != 0 then {g.post} else {}
    {
      var val := g.post;
      NoneTrapped(total, s, hs, pushed, i);
      done' := if val != 0 then done + {val} else done;
      pushed' := pushed;
      if val != 0 && exists r :: r in s && r.p == val {
        var found :| found in s && found.p == val;
        s', pushed' := ExamineFound(g, found, s, done, total, hs, i, pushed, rest);
      } else {
        s' := Reconsider(g, val, s, done);
        ReconsiderKeeps(total, s, hs, pushed, done, i, done', s', g.handOff);
      }
    }

    /** What the loop over the guards has achieved before guard i, for the pending pointers given. */
    ghost predicate Examined(total: multiset<Retired>, s: set<Retired>, hs: seq<Option<Retired>>, vals: seq<nat>,
                             pushed: seq<Retired>, rest: seq<Retired>, i: nat)
      reads this, guards
    {
      && Holds(hs, vals) && i <= |guards| && buffer == pushed + rest
      && LoopInv(total, s, hs, pushed, Posted(vals[..i]), i)
    }

    lemma HoldsStep(hs: seq<Option<Retired>>, vals: seq<nat>, i: nat)
      requires i < |hs| == |vals| == |guards| && forall k, j | 0 <= k < j < |guards| :: guards[k] != guards[j]
      requires guards[i].post == vals[i]
      requires forall j | 0 <= j < |guards| && j != i :: guards[j].handOff == hs[j] && guards[j].post == vals[j]
      ensures Holds(hs[i := guards[i].handOff], vals)
    {
    }

    lemma PostedStep(vals: seq<nat>, i: nat)
      requires i < |vals|
      ensures Posted(vals[..i + 1]) == Posted(vals[..i]) + if vals[i] != 0 then {vals[i]} else {}
    {
      assert vals[..i + 1] == vals[..i] + [vals[i]];
    }

    method ExamineNth(i: nat, s: set<Retired>, done: set<nat>, ghost total: multiset<Retired>,
                      ghost hs: seq<Option<Retired>>,
                      ghost vals: seq<nat>, ghost pushed: seq<Retired>, ghost rest: seq<Retired>)
      returns (s': set<Retired>, done': set<nat>, ghost hs': seq<Option<Retired>>, ghost pushed': seq<Retired>)
      requires i < |guards| && Examined(total, s, hs, vals, pushed, rest, i) && done == Posted(vals[..i])
      requires Distinct(total)
      modifies this`buffer, guards[i]
      ensures Examined(total, s', hs', vals, pushed', rest, i + 1) && done' == Posted(vals[..i + 1])
    {
      var g := guards[i];
      PostedStep(vals, i);
      forall j | 0 <= j < |guards| && j != i ensures guards[j] != g {
        assert if i < j then guards[i] != guards[j] else guards[j] != guards[i];
      }
      s', done', pushed' := Examine(g, s, done, total, hs, i, pushed, rest);
      hs' := hs[i := g.handOff];
      HoldsStep(hs, vals, i);
    }

    /** liberate over the given set: what remains in it afterwards is exactly what no guard posted. */
    method LiberateSet(set0: set<Retired>, ghost hs: seq<Option<Retired>>, ghost vals: seq<nat>)
      returns (s: set<Retired>, ghost hs': seq<Option<Retired>>, ghost pushed: seq<Retired>)
      requires Holds(hs, vals) && Distinct(multiset(set0) + Trapped(hs))
      modifies this`buffer, guards
      ensures Holds(hs', vals) && buffer == pushed + old(buffer)
      ensures LoopInv(multiset(set0) + Trapped(hs), s, hs', pushed, Posted(vals), |vals|)
    {
      ghost var total := multiset(set0) + Trapped(hs);
      var done: set<nat> := {};
      s, hs', pushed := set0, hs, [];
      for i := 0 to |guards|
        invariant Examined(total, s, hs', vals, pushed, old(buffer), i)
        invariant done == Posted(vals[..i]) && guards == old(guards)
      {
        s, done, hs', pushed := ExamineNth(i, s, done, total, hs', vals, pushed, old(buffer));
      }
      assert vals[..|vals|] == vals;
    }

    /** liberate: takes the buffer's pointers and those trapped in guards; frees exactly the ones that no guard
        posts; leaves every other one, once, in a guard that traps it or in the buffer, all of them posted. */
    method Liberate(ghost hs: seq<Option<Retired>>, ghost vals: seq<nat>)
      returns (freed: set<Retired>, ghost hs': seq<Option<Retired>>)
      requires Holds(hs, vals) && Distinct(multiset(buffer) + Trapped(hs))
      modifies this`buffer, guards
      ensures Holds(hs', vals)
      ensures Liberated(multiset(old(buffer)) + Trapped(hs), freed, hs', buffer, Posted(vals))
    {
      var stolen := buffer;
      buffer := [];
      DistinctPart(multiset(stolen), multiset(stolen) + Trapped(hs));
      var s := Collect(stolen);
      ghost var pushed;
      freed, hs', pushed := LiberateSet(s, hs, vals);
      FreesUnposted(multiset(s) + Trapped(hs), freed, hs', pushed, Posted(vals), |vals|);
    }

    /** retirePtr: the pointer joins the buffer; when it holds as many as the threshold, they are liberated. */
    method Retire(r: Retired, threshold: nat, ghost hs: seq<Option<Retired>>, ghost vals: seq<nat>)
      returns (freed: set<Retired>, ghost hs': seq<Option<Retired>>)
      requires Holds(hs, vals) && Distinct(multiset(buffer) + Trapped(hs))
      requires forall q | q in multiset(buffer) + Trapped(hs) :: q.p != r.p
      modifies this`buffer, guards
      ensures Holds(hs', vals)
      ensures if |old(buffer)| + 1 >= threshold
              then Liberated(multiset([r] + old(buffer)) + Trapped(hs), freed, hs', buffer, Posted(vals))
              else freed == {} && hs' == hs && buffer == [r] + old(buffer)
      ensures Distinct(multiset(buffer) + Trapped(hs'))
      ensures multiset(freed) + Trapped(hs') + multiset(buffer) == multiset(old(buffer)) + Trapped(hs) + multiset{r}
      ensures forall q | q in freed :: q.p !in Posted(vals)
    {
      freed, hs' := {}, hs;
      RetireOne(buffer, Trapped(hs), r);
      ghost var before := multiset(buffer) + Trapped(hs) + multiset{r};
      buffer := [r] + buffer;
      if |buffer| >= threshold {
        freed, hs' := Liberate(hs, vals);
        RestDistinct(multiset(freed), Trapped(hs'), multiset(buffer), before);
      }
    }
  }

  /** The outcome of liberate for the pending pointers: a split into freed and kept ones by what the guards post. */
  ghost predicate Liberated(total: multiset<Retired>, freed: set<Retired>, hs: seq<Option<Retired>>, kept: seq<Retired>,
                            posted: set<nat>) {
    && multiset(freed) + Trapped(hs) + multiset(kept) == total
    && (forall r :: r in freed <==> r in total && r.p !in posted)
    && (forall i | 0 <= i < |hs| && hs[i].Some? :: hs[i].value.p in posted)
    && (forall r | r in kept :: r.p in posted)
    && |Trapped(hs)| + |kept| <= |posted|
  }

  lemma {:induction false} AtMostPosted(m: multiset<Retired>, posted: set<nat>)
    requires Distinct(m) && forall r | r in m :: r.p in posted
    ensures |m| <= |posted|
    decreases |m|
  {
    if m != multiset{} {
      var r :| r in m;
      var m', posted' := m - multiset{r}, posted - {r.p};
      DistinctPart(m', m);
      forall q | q in m' ensures q.p in posted' {
        assert q in m;
      }
      AtMostPosted(m', posted');
    }
  }

  lemma FreesUnposted(total: multiset<Retired>, s: set<Retired>, hs: seq<Option<Retired>>, pushed: seq<Retired>,
                      posted: set<nat>, n: nat)
    requires LoopInv(total, s, hs, pushed, posted, n) && n == |hs| && Distinct(total)
    ensures Liberated(total, s, hs, pushed, posted)
  {
    var kept := Trapped(hs) + multiset(pushed);
    forall r | r in kept ensures r.p in posted {
      if r in Trapped(hs) {
        TrappedComesFrom(hs, r);
      } else {
        assert r in multiset(pushed);
      }
    }
    forall r ensures r in s <==> r in total && r.p !in posted {
      assert total[r] == multiset(s)[r] + kept[r];
    }
    assert kept <= total;
    DistinctPart(kept, total);
    AtMostPosted(kept, posted);
    assert |kept| == |Trapped(hs)| + |multiset(pushed)|;
  }

  /** No more survive than there are guards. */
  lemma {:induction false} PostedAtMostGuards(vals: seq<nat>)
    ensures |Posted(vals)| <= |vals|
  {
    if vals != [] {
      PostedAtMostGuards(vals[1..]);
      var rest := Posted(vals[1..]);
      assert Posted(vals) <= rest + {vals[0]};
      assert |rest + {vals[0]}| <= |rest| + 1 by {
        if vals[0] in rest {
          assert rest + {vals[0]} == rest;
        }
      }
      assert rest + {vals[0]} == Posted(vals) + ((rest + {vals[0]}) - Posted(vals));
    }
  }
}
