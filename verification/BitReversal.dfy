/** rbo32 and rbo64: the mask-and-shift code reverses the binary digits of a word. */
module BitReversal {
  import opened PowerOfTwo
  import opened SplitOrder

  // ---------------------------------------------------------------- words as numbers

  /** A bit position as a word. */
  function Position(n: nat): bv32 {
    if n == 0 then 0 else (Position(n / 2) << 1) | (if n % 2 == 1 then 1 else 0)
  }

  predicate Digit(x: bv32, p: bv32)
    requires p < 32
  {
    (x >> p) & 1 == 1
  }

  /** The digits of a 32-bit word, lowest first. */
  function Bits32(x: bv32): (s: seq<bool>)
    ensures |s| == 32
  {
    seq(32, i requires 0 <= i < 32 => MirrorPosition(i); Digit(x, Position(i)))
  }

  /** The number with the given binary digits, lowest first. */
  function FromBits(s: seq<bool>): nat {
    if s == [] then 0 else (if s[0] then 1 else 0) + 2 * FromBits(s[1..])
  }

  function Lo(x: bv64): bv32 { (x & 0xFFFF_FFFF) as bv32 }

  function Hi(x: bv64): bv32 { (x >> 32) as bv32 }

  function Join(hi: bv32, lo: bv32): bv64 { ((hi as bv64) << 32) | (lo as bv64) }

  /** The unsigned value of a 64-bit word. */
  function Value(x: bv64): nat {
    FromBits(Bits32(Lo(x)) + Bits32(Hi(x)))
  }

  // ---------------------------------------------------------------- the source's code

  function Rbo32(x: bv32): bv32 {
    var x1 := ((x >> 1) & 0x5555_5555) | ((x & 0x5555_5555) << 1);
    var x2 := ((x1 >> 2) & 0x3333_3333) | ((x1 & 0x3333_3333) << 2);
    var x3 := ((x2 >> 4) & 0x0F0F_0F0F) | ((x2 & 0x0F0F_0F0F) << 4);
    var x4 := ((x3 >> 8) & 0x00FF_00FF) | ((x3 & 0x00FF_00FF) << 8);
    (x4 >> 16) | (x4 << 16)
  }

  function Rbo64(x: bv64): bv64 {
    Join(Rbo32(Lo(x)), Rbo32(Hi(x)))
  }

  // ---------------------------------------------------------------- it reverses

  function Mirrored<T>(s: seq<T>): (r: seq<T>)
    ensures |r| == |s|
  {
    if s == [] then [] else Mirrored(s[1..]) + [s[0]]
  }

  lemma {:induction false} MirroredAt<T>(s: seq<T>, i: nat)
    requires i < |s|
    ensures Mirrored(s)[i] == s[|s| - 1 - i]
  {
    if i < |s| - 1 {
      MirroredAt(s[1..], i);
    }
  }

  lemma {:induction false} MirroredConcat<T>(s: seq<T>, t: seq<T>)
    ensures Mirrored(s + t) == Mirrored(t) + Mirrored(s)
  {
    if s == [] {
      assert s + t == t;
    } else {
      assert (s + t)[1..] == s[1..] + t;
      MirroredConcat(s[1..], t);
    }
  }

  lemma {:induction false} FromBitsAppend(s: seq<bool>, b: bool)
    ensures FromBits(s + [b]) == FromBits(s) + (if b then Pow2(|s|) else 0)
  {
    if s == [] {
      assert s + [b] == [b];
    } else {
      assert (s + [b])[1..] == s[1..] + [b];
      FromBitsAppend(s[1..], b);
    }
  }

  lemma {:induction false} FromBitsBound(s: seq<bool>)
    ensures FromBits(s) < Pow2(|s|)
  {
    if s != [] {
      FromBitsBound(s[1..]);
    }
  }

  /** Reversing the digits is Rev on the number. */
  lemma {:induction false} MirroredIsRev(s: seq<bool>)
    ensures FromBits(Mirrored(s)) == Rev(|s|, FromBits(s))
  {
    if s != [] {
      MirroredIsRev(s[1..]);
      FromBitsAppend(Mirrored(s[1..]), s[0]);
    }
  }

  // The mirror image of position i among 2, 4, 8, 16 and 32 positions.

  lemma MirrorPosition2(i: nat)
    requires i < 2
    ensures Position(i) < 2 && Position(1 - i) == 1 - Position(i)
  {
  }

  lemma MirrorPosition4(i: nat)
    requires i < 4
    ensures Position(i) < 4 && Position(3 - i) == 3 - Position(i)
  {
    MirrorPosition2(i / 2);
    assert (3 - i) / 2 == 1 - i / 2;
  }

  lemma MirrorPosition8(i: nat)
    requires i < 8
    ensures Position(i) < 8 && Position(7 - i) == 7 - Position(i)
  {
    MirrorPosition4(i / 2);
    assert (7 - i) / 2 == 3 - i / 2;
  }

  lemma MirrorPosition16(i: nat)
    requires i < 16
    ensures Position(i) < 16 && Position(15 - i) == 15 - Position(i)
  {
    MirrorPosition8(i / 2);
    assert (15 - i) / 2 == 7 - i / 2;
  }

  lemma MirrorPosition(i: nat)
    requires i < 32
    ensures Position(i) < 32 && Position(31 - i) == 31 - Position(i)
  {
    MirrorPosition16(i / 2);
    assert (31 - i) / 2 == 15 - i / 2;
  }

  lemma Rbo32Digit(x: bv32, p: bv32)
    requires p < 32
    ensures Digit(Rbo32(x), p) == Digit(x, 31 - p)
  {
  }

  lemma ReversedDigit(x: bv32, y: bv32, i: nat)
    requires i < 32 && y == Rbo32(x)
    ensures Bits32(y)[i] == Bits32(x)[31 - i]
  {
    MirrorPosition(i);
    Rbo32Digit(x, Position(i));
  }

  /** rbo32 reverses the 32 digits of its argument. */
  lemma Rbo32Reverses(x: bv32, y: bv32)
    requires y == Rbo32(x)
    ensures Bits32(y) == Mirrored(Bits32(x))
  {
    var s, t := Bits32(x), Bits32(y);
    assert forall i | 0 <= i < 32 :: t[i] == s[31 - i] by {
      forall i | 0 <= i < 32
        ensures t[i] == s[31 - i]
      {
        ReversedDigit(x, y, i);
      }
    }
    MirrorImage(s, t);
  }

  lemma MirrorImage<T>(s: seq<T>, t: seq<T>)
    requires |s| == |t|
    requires forall i | 0 <= i < |s| :: t[i] == s[|s| - 1 - i]
    ensures t == Mirrored(s)
  {
    forall i | 0 <= i < |s|
      ensures t[i] == Mirrored(s)[i]
    {
      MirroredAt(s, i);
    }
  }

  lemma JoinHalves(hi: bv32, lo: bv32)
    ensures Hi(Join(hi, lo)) == hi && Lo(Join(hi, lo)) == lo
  {
  }

  /** rbo64 reverses all 64 digits of its argument. */
  lemma Rbo64IsReversal(x: bv64)
    ensures Value(x) < Pow2(64)
    ensures Value(Rbo64(x)) == Rev(64, Value(x))
  {
    var l, h := Lo(x), Hi(x);
    JoinHalves(Rbo32(l), Rbo32(h));
    Rbo32Reverses(l, Rbo32(l));
    Rbo32Reverses(h, Rbo32(h));
    MirroredConcat(Bits32(l), Bits32(h));
    MirroredIsRev(Bits32(l) + Bits32(h));
    FromBitsBound(Bits32(l) + Bits32(h));
  }

  // ---------------------------------------------------------------- the list keys as words

  /** getRegularKey */
  function RegularWord(hash: bv64): bv64 {
    Rbo64(hash) | 1
  }

  /** getDummyKey */
  function DummyWord(bucket: bv64): bv64 {
    Rbo64(bucket) & !1
  }

  lemma SetLowBitHigh(x: bv64)
    ensures Hi(x | 1) == Hi(x)
  {
  }

  lemma SetLowBitLow(x: bv64)
    ensures Lo(x | 1) == Lo(x) | 1
  {
  }

  lemma ClearLowBitHigh(x: bv64)
    ensures Hi(x & !1) == Hi(x)
  {
  }

  lemma ClearLowBitLow(x: bv64)
    ensures Lo(x & !1) == Lo(x) & !1
  {
  }

  lemma SetLowBitDigit(x: bv32, p: bv32)
    requires p < 32
    ensures Digit(x | 1, p) == (p == 0 || Digit(x, p))
  {
  }

  lemma ClearLowBitDigit(x: bv32, p: bv32)
    requires p < 32
    ensures Digit(x & !1, p) == (p != 0 && Digit(x, p))
  {
  }

  lemma {:induction false} PositionZero(n: nat)
    requires n < 32
    ensures Position(n) == 0 <==> n == 0
  {
    MirrorPosition(n);
    if n > 0 {
      MirrorPosition(n / 2);
      PositionZero(n / 2);
      NonZeroPosition(Position(n / 2), n % 2 == 1);
    }
  }

  lemma NonZeroPosition(half: bv32, odd: bool)
    requires half < 32
    requires half != 0 || odd
    ensures (half << 1) | (if odd then 1 else 0) != 0
  {
  }

  lemma SetLowDigit(x: bv32, y: bv32)
    requires y == x | 1
    ensures Bits32(y) == Bits32(x)[0 := true]
  {
    forall i | 0 <= i < 32
      ensures Bits32(y)[i] == Bits32(x)[0 := true][i]
    {
      MirrorPosition(i);
      PositionZero(i);
      SetLowBitDigit(x, Position(i));
    }
  }

  lemma ClearLowDigit(x: bv32, y: bv32)
    requires y == x & !1
    ensures Bits32(y) == Bits32(x)[0 := false]
  {
    forall i | 0 <= i < 32
      ensures Bits32(y)[i] == Bits32(x)[0 := false][i]
    {
      MirrorPosition(i);
      PositionZero(i);
      ClearLowBitDigit(x, Position(i));
    }
  }

  lemma FromBitsLowest(s: seq<bool>, b: bool)
    requires s != []
    ensures FromBits(s[0 := b]) == FromBits(s) / 2 * 2 + (if b then 1 else 0)
  {
    var t, f := s[0 := b], FromBits(s[1..]);
    assert t[1..] == s[1..];
    assert FromBits(t) == (if b then 1 else 0) + 2 * f;
    Even(f, s[0]);
  }

  lemma Even(f: nat, b: bool)
    ensures ((if b then 1 else 0) + 2 * f) / 2 * 2 == 2 * f
  {
  }

  lemma LowestOf(l: seq<bool>, l': seq<bool>, h: seq<bool>, b: bool)
    requires l != [] && l' == l[0 := b]
    ensures FromBits(l' + h) == FromBits(l + h) / 2 * 2 + (if b then 1 else 0)
  {
    assert l' + h == (l + h)[0 := b];
    FromBitsLowest(l + h, b);
  }

  lemma SetLowBitValue(x: bv64, y: bv64)
    requires y == x | 1
    ensures Value(y) == Value(x) / 2 * 2 + 1
  {
    SetLowBitHigh(x);
    SetLowBitLow(x);
    SetLowDigit(Lo(x), Lo(y));
    LowestOf(Bits32(Lo(x)), Bits32(Lo(y)), Bits32(Hi(x)), true);
  }

  lemma ClearLowBitValue(x: bv64, y: bv64)
    requires y == x & !1
    ensures Value(y) == Value(x) / 2 * 2
  {
    ClearLowBitHigh(x);
    ClearLowBitLow(x);
    ClearLowDigit(Lo(x), Lo(y));
    LowestOf(Bits32(Lo(x)), Bits32(Lo(y)), Bits32(Hi(x)), false);
  }

  lemma OddKeyOf(z: bv64, y: bv64, v: nat)
    requires Value(z) == Rev(64, v) && y == z | 1
    ensures Value(y) == RegularKey(64, v)
  {
    SetLowBitValue(z, y);
  }

  lemma EvenKeyOf(z: bv64, y: bv64, v: nat)
    requires Value(z) == Rev(64, v) && y == z & !1
    ensures Value(y) == DummyKey(64, v)
  {
    ClearLowBitValue(z, y);
  }

  /** getRegularKey computes the odd key of the split order. */
  lemma RegularWordIsKey(hash: bv64)
    ensures Value(RegularWord(hash)) == RegularKey(64, Value(hash))
  {
    var z, v := Rbo64(hash), Value(hash);
    assert Value(z) == Rev(64, v) by {
      Rbo64IsReversal(hash);
    }
    var y := z | 1;
    OddKeyOf(z, y, v);
    assert RegularWord(hash) == y;
  }

  /** getDummyKey computes the even key of the split order. */
  lemma DummyWordIsKey(bucket: bv64)
    ensures Value(DummyWord(bucket)) == DummyKey(64, Value(bucket))
  {
    Rbo64IsReversal(bucket);
    EvenKeyOf(Rbo64(bucket), DummyWord(bucket), Value(bucket));
  }
}
