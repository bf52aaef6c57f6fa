/** The linked list of the bag's blocks as a sequence: links, contents, unlinking, and what lies ahead
    of a traversal. */
module BagChain {
  import opened Options
  import opened BagMachine

  function First(chain: seq<Id>): Option<Id> {
    if chain == [] then None else Some(chain[0])
  }

  /** Each block of the chain is linked to the next one, and the chain has no block twice. */
  ghost predicate ChainOk(c: Config, blocks: map<Id, Block>, chain: seq<Id>) {
    chain != [] ==>
      && chain[0] in blocks && |blocks[chain[0]].data| == c.slots
      && blocks[chain[0]].next == First(chain[1..])
      && chain[0] !in chain[1..]
      && ChainOk(c, blocks, chain[1..])
  }

  lemma {:induction false} ChainMember(c: Config, blocks: map<Id, Block>, chain: seq<Id>, b: Id)
    requires ChainOk(c, blocks, chain) && b in chain
    ensures b in blocks && |blocks[b].data| == c.slots
    ensures blocks[b].next.Some? ==> blocks[b].next.value in chain && blocks[b].next.value != b
                                     && blocks[b].next.value != chain[0]
  {
    if b != chain[0] {
      ChainMember(c, blocks, chain[1..], b);
    }
  }

  /** Blocks are changed in other ways than their links. */
  ghost predicate SameLinks(blocks: map<Id, Block>, blocks': map<Id, Block>, chain: seq<Id>) {
    forall b | b in chain && b in blocks ::
      b in blocks' && blocks'[b].next == blocks[b].next && |blocks'[b].data| == |blocks[b].data|
  }

  lemma {:induction false} ChainFrame(c: Config, blocks: map<Id, Block>, blocks': map<Id, Block>, chain: seq<Id>)
    requires ChainOk(c, blocks, chain) && SameLinks(blocks, blocks', chain)
    ensures ChainOk(c, blocks', chain)
  {
    if chain != [] {
      ChainFrame(c, blocks, blocks', chain[1..]);
    }
  }

  // ---------------------------------------------------------------- contents

  /** How often value v is in the slots of the chain's blocks. */
  ghost function Count(blocks: map<Id, Block>, chain: seq<Id>, v: Value): nat {
    if chain == [] then 0
    else (if chain[0] in blocks then multiset(blocks[chain[0]].data)[v] else 0) + Count(blocks, chain[1..], v)
  }

  lemma {:induction false} CountFrame(blocks: map<Id, Block>, blocks': map<Id, Block>, chain: seq<Id>, v: Value)
    requires forall b | b in chain ::
               (b in blocks <==> b in blocks') && (b in blocks ==> blocks'[b].data == blocks[b].data)
    ensures Count(blocks', chain, v) == Count(blocks, chain, v)
  {
    if chain != [] {
      CountFrame(blocks, blocks', chain[1..], v);
    }
  }

  /** A slot write exchanges one occurrence of the old value for one of the new value. */
  lemma {:induction false} CountWrite(c: Config, blocks: map<Id, Block>, blocks': map<Id, Block>, chain: seq<Id>,
                                      b: Id, k: nat, x: Value, v: Value)
    requires ChainOk(c, blocks, chain) && b in chain && k < c.slots
    requires b in blocks && |blocks[b].data| == c.slots
    requires b in blocks' && blocks'[b].data == blocks[b].data[k := x]
    requires forall d | d in chain && d != b :: d in blocks ==> d in blocks' && blocks'[d].data == blocks[d].data
    ensures Count(blocks', chain, v) + (if blocks[b].data[k] == v then 1 else 0)
               == Count(blocks, chain, v) + (if x == v then 1 else 0)
  {
    if b == chain[0] {
      forall d | d in chain[1..] ensures d in blocks && d in blocks' && blocks'[d].data == blocks[d].data {
        ChainMember(c, blocks, chain, d);
      }
      CountFrame(blocks, blocks', chain[1..], v);
    } else {
      ChainMember(c, blocks, chain, chain[0]);
      CountWrite(c, blocks, blocks', chain[1..], b, k, x, v);
    }
  }

  // ---------------------------------------------------------------- unlinking

  lemma {:induction false} WithoutMembers(c: Config, blocks: map<Id, Block>, chain: seq<Id>, b: Id)
    requires ChainOk(c, blocks, chain)
    ensures forall d :: d in Without(chain, b) <==> d in chain && d != b
    ensures chain != [] && chain[0] != b ==> First(Without(chain, b)) == First(chain)
  {
    if chain != [] && chain[0] != b {
      WithoutMembers(c, blocks, chain[1..], b);
    }
  }

  /** Linking the predecessor p of b to b's successor leaves the chain without b. */
  lemma {:induction false} UnlinkOk(c: Config, blocks: map<Id, Block>, blocks': map<Id, Block>, chain: seq<Id>,
                                    p: Id, b: Id)
    requires ChainOk(c, blocks, chain) && p in chain && b in chain && p in blocks && b in blocks
    requires blocks[p].next == Some(b)
    requires p in blocks' && blocks'[p].next == blocks[b].next && |blocks'[p].data| == c.slots
    requires forall d | d in chain && d != p && d in blocks ::
               d in blocks' && blocks'[d].next == blocks[d].next && |blocks'[d].data| == |blocks[d].data|
    ensures ChainOk(c, blocks', Without(chain, b))
  {
    ChainMember(c, blocks, chain, p);
    var rest := chain[1..];
    if chain[0] == p {
      assert rest[0] == b;
      assert Without(chain, b) == [p] + rest[1..];
      assert ([p] + rest[1..])[1..] == rest[1..];
      assert forall d | d in rest[1..] :: d in rest;
      ChainFrame(c, blocks, blocks', rest[1..]);
    } else {
      UnlinkOk(c, blocks, blocks', rest, p, b);
      WithoutMembers(c, blocks, rest, b);
      NotFirst(c, blocks, rest, p, b);
      assert ([chain[0]] + Without(rest, b))[1..] == Without(rest, b);
    }
  }

  /** A block with a predecessor is not the first. */
  lemma NotFirst(c: Config, blocks: map<Id, Block>, chain: seq<Id>, p: Id, b: Id)
    requires ChainOk(c, blocks, chain) && p in chain && p in blocks && blocks[p].next == Some(b)
    ensures chain[0] != b && b in chain
  {
    ChainMember(c, blocks, chain, p);
  }

  lemma {:induction false} CountWithout(c: Config, blocks: map<Id, Block>, chain: seq<Id>, b: Id, v: Value)
    requires ChainOk(c, blocks, chain) && b in chain && b in blocks
    ensures Count(blocks, Without(chain, b), v) + multiset(blocks[b].data)[v] == Count(blocks, chain, v)
  {
    if chain[0] != b {
      CountWithout(c, blocks, chain[1..], b, v);
      assert ([chain[0]] + Without(chain[1..], b))[1..] == Without(chain[1..], b);
    }
  }

  // ---------------------------------------------------------------- what lies ahead

  /** The chain from block b on. */
  ghost function From(chain: seq<Id>, b: Id): seq<Id> {
    if chain == [] then [] else if chain[0] == b then chain else From(chain[1..], b)
  }

  lemma {:induction false} FromNext(c: Config, blocks: map<Id, Block>, chain: seq<Id>, b: Id)
    requires ChainOk(c, blocks, chain) && b in chain && b in blocks
    ensures blocks[b].next == None ==> From(chain, b) == [b]
    ensures blocks[b].next.Some? ==> From(chain, b) == [b] + From(chain, blocks[b].next.value)
  {
    if chain[0] == b {
      if blocks[b].next.Some? {
        assert chain == [b] + chain[1..];
      }
    } else {
      FromNext(c, blocks, chain[1..], b);
      if blocks[b].next.Some? {
        NotFirst(c, blocks, chain, b, blocks[b].next.value);
      }
    }
  }

  lemma {:induction false} FromWithout(c: Config, blocks: map<Id, Block>, chain: seq<Id>, b: Id)
    requires ChainOk(c, blocks, chain) && b in chain && b in blocks && blocks[b].next.Some?
    ensures From(Without(chain, b), blocks[b].next.value) == From(chain, blocks[b].next.value)
  {
    var n := blocks[b].next.value;
    NotFirst(c, blocks, chain, b, n);
    if chain[0] != b {
      FromWithout(c, blocks, chain[1..], b);
      assert ([chain[0]] + Without(chain[1..], b))[1..] == Without(chain[1..], b);
    }
  }
}
