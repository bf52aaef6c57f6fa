/** The recursive split order: hashes sorted by their reversed bits, with even keys for the
    dummy nodes that head the buckets and odd keys for the items. */
module SplitOrder {
  import opened PowerOfTwo

  /** x read as n binary digits, in the opposite order. */
  function Rev(n: nat, x: nat): nat
    decreases n, x
  {
    if n == 0 then 0 else (if x % 2 == 1 then Pow2(n - 1) else 0) + Rev(n - 1, x / 2)
  }

  lemma {:induction false} RevBound(n: nat, x: nat)
    ensures Rev(n, x) < Pow2(n)
  {
    if n > 0 {
      RevBound(n - 1, x / 2);
    }
  }

  lemma {:induction false} RevZero(n: nat)
    ensures Rev(n, 0) == 0
  {
    if n > 0 {
      RevZero(n - 1);
    }
  }

  lemma Halve(q: nat, k: nat, b: nat)
    requires k > 0
    ensures (q * Pow2(k) + b) % 2 == b % 2
    ensures (q * Pow2(k) + b) / 2 == q * Pow2(k - 1) + b / 2
  {
    ScaleStep(q, k);
  }

  /** The low digits of the argument become the high digits of the result. */
  lemma {:induction false} RevSplit(k: nat, m: nat, q: nat, b: nat)
    requires b < Pow2(k)
    ensures Rev(k + m, q * Pow2(k) + b) == Rev(k, b) * Pow2(m) + Rev(m, q)
  {
    if k > 0 {
      Halve(q, k, b);
      RevSplit(k - 1, m, q, b / 2);
      Pow2Add(k - 1, m);
      MulDistributes(Pow2(k - 1), Rev(k - 1, b / 2), Pow2(m));
    }
  }

  lemma ScaleStep(r: nat, n: nat)
    requires n > 0
    ensures r * Pow2(n) == 2 * (r * Pow2(n - 1))
    ensures Pow2(n) == 2 * Pow2(n - 1)
  {
  }

  lemma RevAppend(n: nat, q: bool, b: nat)
    requires b < Pow2(n)
    ensures Rev(n + 1, (if q then Pow2(n) else 0) + b) == 2 * Rev(n, b) + (if q then 1 else 0)
  {
    RevSplit(n, 1, if q then 1 else 0, b);
    assert Pow2(1) == 2 && Rev(1, 1) == 1 && Rev(1, 0) == 0 by {
      assert Pow2(0) == 1;
    }
  }

  lemma {:induction false} RevInvolutive(n: nat, x: nat)
    requires x < Pow2(n)
    ensures Rev(n, Rev(n, x)) == x
  {
    if n > 0 {
      var r := Rev(n - 1, x / 2);
      RevBound(n - 1, x / 2);
      RevAppend(n - 1, x % 2 == 1, r);
      RevInvolutive(n - 1, x / 2);
    }
  }

  // w is the width of the hash word, 32 or 64 in the source.

  /** The odd key of an item: the reversed hash with its lowest bit set. */
  function RegularKey(w: nat, h: nat): nat {
    Rev(w, h) / 2 * 2 + 1
  }

  /** The even key of a bucket's dummy node: the reversed bucket number with its lowest bit cleared. */
  function DummyKey(w: nat, b: nat): nat {
    Rev(w, b) / 2 * 2
  }

  /** The bucket of hash h in a table of 2^exp buckets. */
  function BucketNo(h: nat, exp: nat): nat {
    h % Pow2(exp)
  }

  /** The parent of a bucket: its number without the most significant bit. */
  function ParentBucket(b: nat): nat
    requires b > 0
  {
    BitLengthBounds(b);
    b - Pow2(BitLength(b) - 1)
  }

  /** Leading zeros become trailing zeros. */
  lemma RevLeadingZeros(k: nat, m: nat, b: nat)
    requires b < Pow2(k)
    ensures Rev(k + m, b) == Rev(k, b) * Pow2(m)
  {
    RevSplit(k, m, 0, b);
    RevZero(m);
  }

  lemma EvenHalves(r: nat, m: nat)
    requires m > 0
    ensures r * Pow2(m) / 2 * 2 == r * Pow2(m)
  {
    ScaleStep(r, m);
  }

  /** The keys of one bucket among 2^k start at the reversed bucket number, 2^(w-k) apart. */
  lemma DummyKeyShape(w: nat, k: nat, b: nat)
    requires k < w && b < Pow2(k)
    ensures DummyKey(w, b) == Rev(k, b) * Pow2(w - k)
    ensures Rev(k, b) < Pow2(k)
  {
    RevLeadingZeros(k, w - k, b);
    RevBound(k, b);
    EvenHalves(Rev(k, b), w - k);
  }

  lemma OddWithin(x: nat, a: nat, p: nat, t: nat)
    requires x == 2 * a + t && t < 2 * p
    ensures 2 * a < x / 2 * 2 + 1 < 2 * a + 2 * p
  {
  }

  lemma RegularKeyShape(w: nat, k: nat, h: nat)
    requires k < w
    ensures Rev(k, h % Pow2(k)) * Pow2(w - k) < RegularKey(w, h) < Rev(k, h % Pow2(k)) * Pow2(w - k) + Pow2(w - k)
  {
    var q, b := h / Pow2(k), h % Pow2(k);
    var a, p := Rev(k, b) * Pow2(w - k - 1), Pow2(w - k - 1);
    assert Rev(k, b) * Pow2(w - k) == 2 * a && Pow2(w - k) == 2 * p by {
      ScaleStep(Rev(k, b), w - k);
    }
    assert Rev(w, h) == 2 * a + Rev(w - k, q) by {
      DivModBounds(h, Pow2(k));
      RevSplit(k, w - k, q, b);
    }
    RevBound(w - k, q);
    OddWithin(Rev(w, h), a, p, Rev(w - k, q));
  }

  /** In a table of 2^k buckets the items of bucket b are exactly those whose keys lie strictly
      between the bucket's dummy key and the next multiple of 2^(w-k). */
  lemma BucketSegment(w: nat, k: nat, b: nat, h: nat)
    requires k < w && b < Pow2(k)
    ensures BucketNo(h, k) == b <==> DummyKey(w, b) < RegularKey(w, h) < DummyKey(w, b) + Pow2(w - k)
  {
    var d, r, r' := Pow2(w - k), Rev(k, b), Rev(k, h % Pow2(k));
    DivModBounds(h, Pow2(k));
    DummyKeyShape(w, k, b);
    RegularKeyShape(w, k, h);
    if DummyKey(w, b) < RegularKey(w, h) < DummyKey(w, b) + d {
      MulMonotone(r, r', d);
      MulMonotone(r', r, d);
      assert r == r';
      RevInvolutive(k, b);
      RevInvolutive(k, h % Pow2(k));
    }
  }

  /** No other bucket's dummy key falls into that segment. */
  lemma SegmentsDisjoint(w: nat, k: nat, b: nat, c: nat)
    requires k < w && b < Pow2(k) && c < Pow2(k) && b != c
    ensures !(DummyKey(w, b) <= DummyKey(w, c) < DummyKey(w, b) + Pow2(w - k))
  {
    DummyKeyShape(w, k, b);
    DummyKeyShape(w, k, c);
    MulMonotone(Rev(k, b), Rev(k, c), Pow2(w - k));
    MulMonotone(Rev(k, c), Rev(k, b), Pow2(w - k));
    RevInvolutive(k, b);
    RevInvolutive(k, c);
  }

  /** Doubling the table: the new bucket's dummy sits in the middle of its parent's segment. */
  lemma ChildDummy(w: nat, k: nat, b: nat)
    requires k + 1 < w && b < Pow2(k)
    ensures DummyKey(w, b + Pow2(k)) == DummyKey(w, b) + Pow2(w - k - 1)
  {
    var c, p := Rev(k + 1, b), Pow2(w - k - 1);
    RevAppend(k, false, b);
    RevAppend(k, true, b);
    assert DummyKey(w, b) == c * p by {
      DummyKeyShape(w, k + 1, b);
    }
    assert DummyKey(w, b + Pow2(k)) == (c + 1) * p by {
      DummyKeyShape(w, k + 1, b + Pow2(k));
    }
    MulDistributes(c, 1, p);
  }

  /** The new dummy separates the items that stay with b from those that move to b + 2^k. */
  lemma SplitSegment(w: nat, k: nat, b: nat, h: nat)
    requires k + 1 < w && b < Pow2(k) && BucketNo(h, k) == b
    ensures BucketNo(h, k + 1) == b <==> RegularKey(w, h) < DummyKey(w, b + Pow2(k))
    ensures BucketNo(h, k + 1) == b + Pow2(k) <==> RegularKey(w, h) > DummyKey(w, b + Pow2(k))
  {
    ChildDummy(w, k, b);
    BucketSegment(w, k + 1, b, h);
    BucketSegment(w, k + 1, b + Pow2(k), h);
    BucketSegment(w, k, b, h);
    ScaleStep(1, w - k);
  }

  lemma DummyBelowRegular(w: nat, k: nat, h: nat)
    requires k < w
    ensures DummyKey(w, BucketNo(h, k)) < RegularKey(w, h)
  {
    DivModBounds(h, Pow2(k));
    BucketSegment(w, k, BucketNo(h, k), h);
  }

  lemma ParentBucketBounds(b: nat)
    requires b > 0
    ensures ParentBucket(b) < Pow2(BitLength(b) - 1)
    ensures b == ParentBucket(b) + Pow2(BitLength(b) - 1)
  {
    BitLengthBounds(b);
  }

  /** A parent's dummy precedes the dummies of its children. */
  lemma ParentBelowChild(w: nat, b: nat)
    requires w > 0
    requires 0 < b < Pow2(w - 1)
    ensures ParentBucket(b) < b
    ensures DummyKey(w, ParentBucket(b)) < DummyKey(w, b)
  {
    BitLengthBounds(b);
    ParentBucketBounds(b);
    var k := BitLength(b) - 1;
    if k >= w - 1 {
      Pow2Monotone(w - 1, k);
      assert false;
    }
    ChildDummy(w, k, ParentBucket(b));
  }

  lemma DummyKeyInjective(w: nat, b: nat, c: nat)
    requires w > 0
    requires b < Pow2(w - 1) && c < Pow2(w - 1)
    requires DummyKey(w, b) == DummyKey(w, c)
    ensures b == c
  {
    if b != c {
      Pow2Monotone(0, 1);
      SegmentsDisjoint(w, w - 1, b, c);
    }
  }

  /** Hashes share a regular key exactly when they differ at most in their top bit. */
  lemma RegularKeyCollision(w: nat, h: nat, h': nat)
    requires w > 0
    requires h < Pow2(w) && h' < Pow2(w)
    ensures RegularKey(w, h) == RegularKey(w, h') <==> h % Pow2(w - 1) == h' % Pow2(w - 1)
  {
    DivModBounds(h, Pow2(w - 1));
    DivModBounds(h', Pow2(w - 1));
    BucketSegment(w, w - 1, h % Pow2(w - 1), h);
    BucketSegment(w, w - 1, h % Pow2(w - 1), h');
    DummyKeyShape(w, w - 1, h % Pow2(w - 1));
    assert Pow2(1) == 2;
  }

  /** The parent of a bucket, digit by digit: the last digit stays. */
  lemma ParentOfHalf(b: nat)
    requires b > 1
    ensures ParentBucket(b) == 2 * ParentBucket(b / 2) + b % 2
  {
    var l := BitLength(b / 2);
    BitLengthBounds(b / 2);
    assert BitLength(b) == 1 + l && Pow2(l) == 2 * Pow2(l - 1);
  }

  /** Climbing to the parent clears one set bit, so a chain of parents has at most as many links
      as the bucket number has set bits. */
  lemma {:induction false} ParentClearsOneBit(b: nat)
    requires b > 0
    ensures PopCount(ParentBucket(b)) + 1 == PopCount(b)
  {
    if b == 1 {
      assert PopCount(0) == 0 && Pow2(0) == 1;
    } else {
      ParentClearsOneBit(b / 2);
      ParentOfHalf(b);
      PopCountAppend(ParentBucket(b / 2), b % 2);
    }
  }

  lemma PopCountAppend(v: nat, digit: nat)
    requires digit < 2
    ensures PopCount(2 * v + digit) == PopCount(v) + digit
  {
  }
}
