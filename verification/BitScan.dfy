/** msb32 and msb64: the position of the most significant set bit, found by narrowing. */
module BitScan {
  import opened PowerOfTwo
  import opened SplitOrder

  // Masks of leading ones test a word against a power of two, and a left shift drops what
  // leaves the word.
  const TWO32: nat := 0x1_0000_0000

  function ShiftLeft32(x: nat, n: nat): nat {
    x * Pow2(n) % TWO32
  }

  lemma {:induction false} ShiftAddsDigits(x: nat, n: nat)
    requires x > 0
    ensures x * Pow2(n) > 0
    ensures BitLength(x * Pow2(n)) == BitLength(x) + n
  {
    if n > 0 {
      ShiftAddsDigits(x, n - 1);
      ScaleStep(x, n);
    }
  }

  lemma Powers()
    ensures Pow2(16) == 0x1_0000 && Pow2(24) == 0x100_0000 && Pow2(28) == 0x1000_0000
    ensures Pow2(30) == 0x4000_0000 && Pow2(31) == 0x8000_0000 && Pow2(32) == TWO32
  {
    assert Pow2(4) == 16;
    Pow2Add(4, 4);
    Pow2Add(8, 8);
    Pow2Add(16, 8);
    Pow2Add(24, 4);
    assert Pow2(30) == 4 * Pow2(28);
    assert Pow2(32) == 4 * Pow2(30);
  }

  lemma NothingDropped(x: nat, n: nat)
    requires n <= 32 && x < Pow2(32 - n)
    ensures ShiftLeft32(x, n) == x * Pow2(n) < TWO32
  {
    Pow2Add(32 - n, n);
    MulMonotone(x, Pow2(32 - n), Pow2(n));
    MulNonNegative(x, Pow2(n));
    Powers();
  }

  /** Shifting a nonzero word that is below 2^(32-n) keeps all its digits. */
  lemma Narrow(x: nat, n: nat)
    requires 0 < x && n <= 32 && x < Pow2(32 - n)
    ensures 0 < ShiftLeft32(x, n) < TWO32
    ensures BitLength(ShiftLeft32(x, n)) == BitLength(x) + n
  {
    NothingDropped(x, n);
    ShiftAddsDigits(x, n);
  }

  /** One narrowing: if the n leading bits are zero, drop them. */
  method NarrowStep(x: nat, r: int, n: nat) returns (x': nat, r': int)
    requires 0 < n <= 16 && Pow2(32 - 2 * n) <= x < TWO32
    ensures Pow2(32 - n) <= x' < TWO32
    ensures r' + BitLength(x') == r + BitLength(x)
  {
    if x < Pow2(32 - n) {
      Narrow(x, n);
      KeepsLeading(x, n);
      return ShiftLeft32(x, n), r - n;
    }
    return x, r;
  }

  lemma KeepsLeading(x: nat, n: nat)
    requires 0 < n <= 16 && Pow2(32 - 2 * n) <= x < Pow2(32 - n)
    ensures ShiftLeft32(x, n) >= Pow2(32 - n)
  {
    NothingDropped(x, n);
    Pow2Add(32 - 2 * n, n);
    MulMonotone(Pow2(32 - 2 * n), x, Pow2(n));
  }

  /** The number (1..32) of the most significant bit; 0 for 0. */
  method Msb32(word: nat) returns (r: int)
    requires word < TWO32
    ensures r == BitLength(word)
  {
    if word == 0 {
      return 0;
    }
    var x;
    x, r := NarrowStep(word, 32, 16);
    x, r := NarrowStep(x, r, 8);
    x, r := NarrowStep(x, r, 4);
    x, r := NarrowStep(x, r, 2);
    x, r := NarrowStep(x, r, 1);
    TopBitSet(x);
  }

  lemma TopBitSet(x: nat)
    requires Pow2(31) <= x < TWO32
    ensures BitLength(x) == 32
  {
    Powers();
    BitLengthUnique(x, 31);
  }

  method Msb64(word: nat) returns (r: int)
    requires word < TWO32 * TWO32
    ensures r == BitLength(word)
  {
    var h := word / TWO32;
    if h != 0 {
      r := Msb32(h);
      r := r + 32;
      HighHalf(word);
    } else {
      r := Msb32(word % TWO32);
    }
  }

  lemma {:induction false} DropDigits(v: nat, n: nat)
    requires v / Pow2(n) > 0
    ensures BitLength(v) == BitLength(v / Pow2(n)) + n
  {
    if n > 0 {
      HalfOfQuotient(v, n);
      DropDigits(v / 2, n - 1);
    }
  }

  lemma HalfOfQuotient(v: nat, n: nat)
    requires n > 0
    ensures v / Pow2(n) == v / 2 / Pow2(n - 1)
    ensures v / Pow2(n) > 0 ==> v > 0
  {
    var p, q := Pow2(n - 1), v / 2 / Pow2(n - 1);
    DivModBounds(v / 2, p);
    ScaleStep(q, n);
    DivModUnique(v, Pow2(n), q, 2 * (v / 2 % p) + v % 2);
  }

  lemma HighHalf(word: nat)
    requires word / TWO32 != 0
    ensures BitLength(word) == BitLength(word / TWO32) + 32
  {
    Powers();
    DropDigits(word, 32);
  }

  /** getParentBucket unsets the bit that MSBnz names. */
  method ParentOf(bucket: nat) returns (parent: nat)
    requires 0 < bucket < TWO32 * TWO32
    ensures parent == ParentBucket(bucket)
    ensures parent < bucket
  {
    var msb := Msb64(bucket);
    BitLengthBounds(bucket);
    parent := bucket - Pow2(msb - 1);
  }
}
