/** The table of bucket heads: its size computed from the expected load, its buckets spread over
    segments that are allocated when first written. */
module BucketTable {
  import opened Options
  import opened PowerOfTwo

  // ---------------------------------------------------------------- powers of two near a number

  predicate BitSet(n: nat, k: nat) {
    n / Pow2(k) % 2 == 1
  }

  function Distance(a: nat, b: nat): nat {
    if a < b then b - a else a - b
  }

  /** 2^e is a power of two nearest to n, and the smaller one of two that are equally near. */
  ghost predicate NearestExponent(n: nat, e: nat) {
    && (forall k: nat :: Distance(Pow2(e), n) <= Distance(Pow2(k), n))
    && (forall k: nat :: Distance(Pow2(e), n) == Distance(Pow2(k), n) ==> e <= k)
  }

  lemma NearestUnique(n: nat, e: nat, e': nat)
    requires NearestExponent(n, e) && NearestExponent(n, e')
    ensures e == e'
  {
    assert Distance(Pow2(e), n) == Distance(Pow2(e'), n);
  }

  /** Between 2^f and 2^(f+1) the middle is the last number rounded down. */
  lemma RoundsAtMiddle(n: nat, f: nat)
    requires f > 0 && Pow2(f) <= n < Pow2(f + 1)
    ensures NearestExponent(n, if n - Pow2(f) > Pow2(f - 1) then f + 1 else f)
  {
    var e := if n - Pow2(f) > Pow2(f - 1) then f + 1 else f;
    forall k: nat
      ensures Distance(Pow2(e), n) <= Distance(Pow2(k), n)
      ensures Distance(Pow2(e), n) == Distance(Pow2(k), n) ==> e <= k
    {
      if k < f {
        Pow2Monotone(k, f);
      } else if k > f + 1 {
        Pow2Monotone(f + 1, k);
      }
    }
  }

  lemma RemainderAboveHalf(n: nat, f: nat)
    requires Pow2(f) <= n < Pow2(f + 1)
    ensures n % Pow2(f) == n - Pow2(f)
  {
    DivModUnique(n, Pow2(f), 1, n - Pow2(f));
  }

  lemma BitNotSet(n: nat, k: nat)
    requires n < Pow2(k + 1) && !BitSet(n, k)
    ensures n < Pow2(k)
  {
    if n >= Pow2(k) {
      DivModUnique(n, Pow2(k), 1, n - Pow2(k));
    }
  }

  lemma BitIsSet(n: nat, k: nat)
    requires BitSet(n, k)
    ensures n >= Pow2(k)
  {
    if n < Pow2(k) {
      DivModUnique(n, Pow2(k), 0, n);
    }
  }

  /** exp2Ceil: despite its name the exponent of the nearest power of two. Numbers below 2 are outside
      its domain, since it shifts by the exponent less one. */
  method Exp2Ceil(w: nat, n: nat) returns (e: nat)
    requires 2 <= n < Pow2(w)
    ensures NearestExponent(n, e)
  {
    var exp, bit: nat := 0, w;
    while bit > 0
      invariant bit <= w && n < Pow2(bit)
    {
      bit := bit - 1;
      if BitSet(n, bit) {
        exp := bit;
        BitIsSet(n, bit);
        break;
      }
      BitNotSet(n, bit);
    }
    assert exp > 0 by {
      assert Pow2(0) == 1 && Pow2(1) == 2;
    }
    RemainderAboveHalf(n, exp);
    RoundsAtMiddle(n, exp);
    e := exp;
    if n % Pow2(exp) > Pow2(exp - 1) {
      e := e + 1;
    }
  }

  lemma LowDigits(n: nat, k: nat)
    ensures n % Pow2(k + 1) == n % Pow2(k) + (if BitSet(n, k) then Pow2(k) else 0)
  {
    var d, q := Pow2(k), n / Pow2(k);
    DivModBounds(n, d);
    DivModBounds(q, 2);
    var bit := if BitSet(n, k) then d else 0;
    assert q * d == q / 2 * (2 * d) + bit by {
      MulDistributes(q / 2 * 2, q % 2, d);
      MulAssociates(q / 2, 2, d);
    }
    DivModUnique(n, 2 * d, q / 2, n % d + bit);
  }

  /** Two set bits are one too many for a power of two. */
  lemma TwoBits(n: nat, i: nat, j: nat, k: nat)
    requires i < j && n % Pow2(j + 1) == Pow2(i) + Pow2(j)
    ensures n != Pow2(k)
  {
    if n == Pow2(k) {
      if k <= j {
        Pow2Monotone(k, j);
        DivModUnique(n, Pow2(j + 1), 0, n);
      } else {
        Pow2Add(k - j - 1, j + 1);
        DivModUnique(n, Pow2(j + 1), Pow2(k - j - 1), 0);
      }
    }
  }

  /** exponent2: the logarithm of a power of two, and -1 for every other number. */
  method Exponent2(w: nat, n: nat) returns (e: int)
    requires n < Pow2(w)
    ensures e >= 0 ==> n == Pow2(e)
    ensures e < 0 ==> e == -1 && forall k: nat :: n != Pow2(k)
  {
    e := -1;
    var bit := 0;
    assert n % Pow2(0) == 0;
    while bit < w
      invariant bit <= w && -1 <= e < bit
      invariant n % Pow2(bit) == if e < 0 then 0 else Pow2(e)
    {
      LowDigits(n, bit);
      if BitSet(n, bit) {
        if e == -1 {
          e := bit;
        } else {
          forall k: nat ensures n != Pow2(k) {
            TwoBits(n, e, bit, k);
          }
          return -1;
        }
      }
      bit := bit + 1;
    }
    DivModUnique(n, Pow2(w), 0, n);
  }

  // ---------------------------------------------------------------- the size of the table

  datatype Metrics = Metrics(
    segmentCount: nat, segmentSize: nat, segmentSizeLog2: int, loadFactor: nat, capacity: nat)
  {
    ghost predicate Valid() {
      && segmentSizeLog2 >= 0 && segmentSize == Pow2(segmentSizeLog2)
      && segmentCount > 0 && capacity == segmentCount * segmentSize
    }
  }

  /** The number of buckets asked for. */
  function Wanted(items: nat, load: nat): nat {
    items / (if load > 0 then load else 1)
  }

  ghost predicate IsPow2(n: nat) {
    exists k: nat :: n == Pow2(k)
  }

  /** What a table laid out for n buckets looks like: two buckets for up to two, and otherwise a power of two between
      two thirds of n and 2n, which reaches n when n is large or rounds up; and the split of large tables into
      segments. */
  ghost predicate LaidOutFor(m: Metrics, n: nat) {
    m.Valid() && CapacityFor(m.capacity, n) && SegmentsFor(m.segmentCount, m.segmentSize, n)
  }

  ghost predicate CapacityFor(capacity: nat, n: nat) {
    && IsPow2(capacity)
    && (n <= capacity <==> n <= 2 || n > 1024 || RoundsUp(n))
    && if n <= 2 then capacity == 2 else 2 * n <= 3 * capacity && capacity <= 2 * n
  }

  ghost predicate SegmentsFor(count: nat, size: nat, n: nat) {
    if n <= 1024 then count == 1 else count <= size <= 4 * count
  }

  /** The wanted number is a power of two, or above the middle between two of them. */
  ghost predicate RoundsUp(n: nat) {
    n > 0 && var low := Pow2(BitLength(n) - 1); n == low || 2 * (n - low) > low
  }

  /** Rounding to the nearest power of two stays within a third below and a third above, and reaches n
      exactly when n rounds up. */
  lemma NearestShape(n: nat, e: nat)
    requires n >= 2 && NearestExponent(n, e)
    ensures e >= 1 && Pow2(e) >= 2
    ensures n <= Pow2(e) <==> RoundsUp(n)
    ensures 2 * n <= 3 * Pow2(e) && Pow2(e) <= 2 * n
  {
    BitLengthBounds(n);
    var f := BitLength(n) - 1;
    assert Pow2(0) == 1 && Pow2(1) == 2;
    RoundsAtMiddle(n, f);
    NearestUnique(n, e, if n - Pow2(f) > Pow2(f - 1) then f + 1 else f);
  }

  lemma Halves(e: nat, count: nat, size: nat)
    requires count == Pow2(e / 2) && size == Pow2(e / 2 + e % 2)
    ensures count * size == Pow2(e)
  {
    Pow2Add(e / 2, e / 2 + e % 2);
  }

  /** The test for the correction compares p buckets with the number wanted. */
  lemma Corrected(items: nat, load: nat, p: nat)
    requires load > 0
    ensures p * load < items ==> p <= items / load
    ensures p * load >= items ==> p >= items / load
  {
    DivModBounds(items, load);
    MulMonotone(p, items / load, load);
    MulMonotone(items / load + 1, p, load);
    MulDistributes(items / load, 1, load);
  }

  lemma WantedBelow(items: nat, load: nat)
    requires load > 0
    ensures items / load <= items
  {
    DivModBounds(items, load);
    MulMonotone(1, load, items / load);
  }

  lemma FactorFits(count: nat, size: nat, p: nat)
    requires count > 0 && count * size == p
    ensures size <= p
  {
    MulMonotone(1, count, size);
  }

  /** One segment is enough for up to 1024 buckets; here nothing corrects the exponent. */
  method SmallTable(w: nat, n: nat) returns (size: nat)
    requires w >= 2 && n <= 1024 && n < Pow2(w - 1)
    ensures CapacityFor(size, n) && size < Pow2(w)
  {
    assert Pow2(1) == 2 && Pow2(0) == 1;
    Pow2Monotone(1, w - 1);
    size := 2;
    if n > 2 {
      var e := Exp2Ceil(w, n);
      NearestShape(n, e);
      size := Pow2(e);
    }
  }

  /** The table that calcMetrics lays out for a wanted number of buckets above 1024. */
  method LargeTable(w: nat, items: nat, load: nat) returns (count: nat, size: nat)
    requires load > 0 && w >= 2 && items < Pow2(w - 1)
    requires items / load > 1024
    ensures IsPow2(size) && IsPow2(count * size) && count > 0
    ensures items / load <= count * size <= 2 * (items / load)
    ensures count <= size <= 4 * count
  {
    var n := items / load;
    WantedBelow(items, load);
    var e := Exp2Ceil(w, n);
    NearestShape(n, e);
    count, size := Pow2(e / 2), Pow2(e / 2);
    if e % 2 == 1 {
      size := size * 2;
    }
    ghost var half := e / 2 + e % 2;
    assert size == Pow2(half);
    Halves(e, count, size);
    Corrected(items, load, Pow2(e));
    if count * size * load < items {
      size := size * 2;
      MulAssociates(count, Pow2(half), 2);
      assert size == Pow2(half + 1) && count * size == Pow2(e + 1);
    }
  }

  /** The segments for a wanted number of buckets. */
  method Layout(w: nat, items: nat, load: nat) returns (count: nat, size: nat)
    requires load > 0 && w >= 2 && items < Pow2(w - 1)
    ensures count > 0 && IsPow2(size) && size < Pow2(w)
    ensures CapacityFor(count * size, items / load) && SegmentsFor(count, size, items / load)
  {
    var n := items / load;
    WantedBelow(items, load);
    if n <= 1024 {
      count := 1;
      size := SmallTable(w, n);
    } else {
      count, size := LargeTable(w, items, load);
      FactorFits(count, size, count * size);
    }
  }

  /** calcMetrics promises a power of two between n and max(2, 2n). That is what the large tables get, after
      a correction; up to 1024 buckets, where there is none, it holds exactly when n rounds up. */
  method CalcMetrics(w: nat, items: nat, load: nat) returns (m: Metrics)
    requires w >= 2 && items < Pow2(w - 1)
    ensures LaidOutFor(m, Wanted(items, load)) && m.loadFactor == (if load > 0 then load else 1)
  {
    var loadFactor := if load > 0 then load else 1;
    var count, size := Layout(w, items, loadFactor);
    var log := Exponent2(w, size);
    m := Metrics(count, size, log, loadFactor, count * size);
  }

  lemma PowerBetween(k: nat, m: nat)
    requires Pow2(m) <= Pow2(k) < 2 * Pow2(m)
    ensures k == m
  {
    if k < m {
      Pow2Monotone(k, m);
    } else if k > m {
      Pow2Monotone(m, k);
    }
  }

  /** Five buckets wanted, four given, whatever the width of the word: here the promise that the capacity reaches
      the wanted number fails. */
  method TooFewBuckets(w: nat) returns (m: Metrics)
    requires w >= 4
    ensures Wanted(5, 1) == 5 && m.capacity == 4
  {
    assert Pow2(2) == 4 && Pow2(3) == 8 && BitLength(5) == 3;
    Pow2Monotone(3, w - 1);
    m := CalcMetrics(w, 5, 1);
    ghost var k: nat :| m.capacity == Pow2(k);
    PowerBetween(k, 2);
  }

  // ---------------------------------------------------------------- the table

  /** Where shift and mask put a bucket: its segment and the offset there. */
  function Segment(m: Metrics, bucket: nat): nat
    requires m.segmentSizeLog2 >= 0
  {
    DivModBounds(bucket, Pow2(m.segmentSizeLog2));
    bucket / Pow2(m.segmentSizeLog2)
  }

  function Offset(m: Metrics, bucket: nat): nat
    requires m.segmentSize > 0
  {
    bucket % m.segmentSize
  }

  /** Shift and mask are a bijection between the buckets and the places of the table. */
  lemma AddressBijective(m: Metrics, segment: nat, offset: nat)
    requires m.Valid() && segment < m.segmentCount && offset < m.segmentSize
    ensures var b := segment * m.segmentSize + offset;
            && 0 <= b < m.capacity && Segment(m, b) == segment && Offset(m, b) == offset
            && forall b': nat :: Segment(m, b') == segment && Offset(m, b') == offset ==> b' == b
  {
    var d := m.segmentSize;
    var b := segment * d + offset;
    MulNonNegative(segment, d);
    DivModUnique(b, d, segment, offset);
    MulMonotone(segment, m.segmentCount, d);
    forall b': nat | Segment(m, b') == segment && Offset(m, b') == offset ensures b' == b {
      DivModBounds(b', d);
    }
  }

  lemma AddressInRange(m: Metrics, b: nat)
    requires m.Valid() && b < m.capacity
    ensures 0 <= Segment(m, b) < m.segmentCount && 0 <= Offset(m, b) < m.segmentSize
  {
    DivModBounds(b, m.segmentSize);
    MulMonotone(m.segmentCount, Segment(m, b), m.segmentSize);
  }

  lemma AddressInjective(m: Metrics, b: nat, b': nat)
    requires m.Valid() && Segment(m, b) == Segment(m, b') && Offset(m, b) == Offset(m, b')
    ensures b == b'
  {
    DivModBounds(b, m.segmentSize);
    DivModBounds(b', m.segmentSize);
  }

  /** dynamic_bucket_table: T is the type of bucket heads, absent until set. */
  class DynamicBucketTable<T(0)> {
    const metrics: Metrics
    const segments: array<array?<Option<T>>>

    ghost predicate Valid()
      reads segments
    {
      && metrics.Valid()
      && segments.Length == metrics.segmentCount
      && (forall i | 0 <= i < segments.Length && segments[i] != null :: segments[i].Length == metrics.segmentSize)
      && (forall i, j | 0 <= i < segments.Length && 0 <= j < segments.Length && i != j && segments[i] != null ::
            segments[i] != segments[j])
    }

    /** The allocated segments. */
    ghost function Repr(): set<object>
      reads segments
    {
      set i | 0 <= i < segments.Length && segments[i] != null :: segments[i]
    }

    /** The head of a bucket, as the map above sees it. */
    ghost function Head(b: nat): Option<T>
      requires Valid() && b < metrics.capacity
      reads segments, Repr()
    {
      AddressInRange(metrics, b);
      var segment := segments[Segment(metrics, b)];
      if segment == null then None else segment[Offset(metrics, b)]
    }

    /** A table with no bucket set, of the default size. */
    constructor ()
      ensures Valid() && fresh(segments) && Repr() == {}
      ensures metrics.segmentCount == 1024 && metrics.segmentSize == 512 && metrics.segmentSizeLog2 == 9
      ensures metrics.loadFactor == 1 && metrics.capacity == 0x8_0000
      ensures forall b: nat | b < metrics.capacity :: Head(b) == None
    {
      metrics := Metrics(1024, 512, 9, 1, 0x8_0000);
      segments := new array?<Option<T>>[1024](i => null);
      assert Pow2(9) == 512;
    }

    /** A table with no bucket set, laid out for the expected load. */
    constructor Sized(w: nat, items: nat, load: nat)
      requires w >= 2 && items < Pow2(w - 1)
      ensures Valid() && fresh(segments) && Repr() == {}
      ensures LaidOutFor(metrics, Wanted(items, load)) && metrics.loadFactor == (if load > 0 then load else 1)
      ensures forall b: nat | b < metrics.capacity :: Head(b) == None
    {
      var m := CalcMetrics(w, items, load);
      metrics := m;
      segments := new array?<Option<T>>[m.segmentCount](i => null);
      new;
      forall b: nat | b < metrics.capacity ensures Head(b) == None {
        AddressInRange(metrics, b);
      }
    }

    /** getBucket; the caller keeps the bucket number below the capacity. */
    method GetBucket(b: nat) returns (head: Option<T>)
      requires Valid() && b < metrics.capacity
      ensures head == Head(b)
    {
      AddressInRange(metrics, b);
      var segment := segments[Segment(metrics, b)];
      if segment == null {
        return None;
      }
      head := segment[Offset(metrics, b)];
    }

    /** setBucket: the segment is allocated when its first bucket is set; no other bucket changes. */
    method SetBucket(b: nat, head: Option<T>)
      requires Valid() && b < metrics.capacity
      modifies segments, Repr()
      ensures Valid() && fresh(Repr() - old(Repr()))
      ensures Head(b) == head
      ensures forall b': nat | b' < metrics.capacity && b' != b :: Head(b') == old(Head(b'))
    {
      AddressInRange(metrics, b);
      var i := Segment(metrics, b);
      if segments[i] == null {
        var segment := new Option<T>[metrics.segmentSize](k => None);
        segments[i] := segment;
      }
      segments[i][Offset(metrics, b)] := head;
      forall b': nat | b' < metrics.capacity && b' != b ensures Head(b') == old(Head(b')) {
        AddressInRange(metrics, b');
        if Segment(metrics, b') == i && Offset(metrics, b') == Offset(metrics, b) {
          AddressInjective(metrics, b, b');
        }
      }
    }
  }
}
