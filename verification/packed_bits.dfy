/** The bit operations of block.c on machine words, and the numbers the words stand for. */
module PackedBits {
  import opened PackedEntry

  function Bit(w: bv32): nat { if w & 1 == 1 then 1 else 0 }

  function Half(w: bv32): bv32 { w >> 1 }

  function Pow2(n: nat): nat { if n == 0 then 1 else 2 * Pow2(n - 1) }

  /** The number that the lowest n bits of w stand for. */
  function LowValue(w: bv32, n: nat): nat
    decreases n
  {
    if n == 0 then 0 else Bit(w) + 2 * LowValue(Half(w), n - 1)
  }

  /** The number a word stands for. */
  function Value(w: bv32): Word {
    LowValueBound(w, 32);
    Powers();
    LowValue(w, 32)
  }

  /** w moved right by n bits, one at a time. */
  function Shifted(w: bv32, n: nat): bv32
    decreases n
  {
    if n == 0 then w else Shifted(Half(w), n - 1)
  }

  lemma {:induction false} LowValueBound(w: bv32, n: nat)
    ensures LowValue(w, n) < Pow2(n)
    decreases n
  {
    hide Half;
    if n > 0 { LowValueBound(Half(w), n - 1); }
  }

  lemma Powers()
    ensures Pow2(12) == SIZES && Pow2(20) == NUMBERS && Pow2(32) == 0x1_0000_0000
  {
    assert Pow2(4) == 16;
    assert Pow2(8) == 256;
    assert Pow2(12) == 4096;
    assert Pow2(16) == 65536;
    assert Pow2(20) == 0x10_0000;
    assert Pow2(24) == 0x100_0000;
    assert Pow2(28) == 0x1000_0000;
  }

  lemma {:induction false} SplitValue(w: bv32, k: nat, m: nat)
    ensures LowValue(w, k + m) == LowValue(w, k) + Pow2(k) * LowValue(Shifted(w, k), m)
    decreases k
  {
    hide Half, Bit;
    if k > 0 {
      SplitValue(Half(w), k - 1, m);
      SplitStep(w, k, m, LowValue(Shifted(w, k), m));
    }
  }

  lemma SplitStep(w: bv32, k: nat, m: nat, high: nat)
    requires k > 0 && LowValue(Half(w), k - 1 + m) == LowValue(Half(w), k - 1) + Pow2(k - 1) * high
    ensures LowValue(w, k + m) == LowValue(w, k) + Pow2(k) * high
  {
    hide Half, Bit;
    var p := Pow2(k - 1);
    assert 2 * (p * high) == (2 * p) * high;
  }

  lemma {:induction false} ShiftedPlus(w: bv32, a: nat, b: nat)
    ensures Shifted(w, a + b) == Shifted(Shifted(w, a), b)
    decreases a
  {
    hide Half;
    if a > 0 { ShiftedPlus(Half(w), a - 1, b); }
  }

  function ByFour(w: bv32): bv32 { w >> 4 }

  lemma ShiftedByFour(w: bv32)
    ensures Shifted(w, 4) == ByFour(w)
  {
    assert Half(Half(Half(Half(w)))) == w >> 4;
    hide Half;
    assert Shifted(w, 4) == Shifted(Half(w), 3) == Shifted(Half(Half(w)), 2) == Shifted(Half(Half(Half(w))), 1);
  }

  lemma ShiftedMore(w: bv32, n: nat)
    ensures Shifted(w, n + 4) == ByFour(Shifted(w, n))
  {
    hide ByFour, Half;
    ShiftedPlus(w, n, 4);
    ShiftedByFour(Shifted(w, n));
  }

  lemma FoursOf(w: bv32)
    ensures ByFour(ByFour(ByFour(w))) == w >> 12 && ByFour(ByFour(ByFour(ByFour(ByFour(w))))) == w >> 20
  {
  }

  lemma ShiftedFields(w: bv32)
    ensures Shifted(w, 12) == w >> 12 && Shifted(w, 20) == w >> 20
  {
    hide ByFour, Half;
    FoursOf(w);
    ShiftedByFour(w);
    ShiftedMore(w, 4);
    ShiftedMore(w, 8);
    ShiftedMore(w, 12);
    ShiftedMore(w, 16);
  }

  predicate Odd(mask: bv32) { mask & 1 == 1 }

  predicate SameUnder(v: bv32, w: bv32, mask: bv32) { v & mask == w & mask }

  /** The lowest n bits of the mask are ones. */
  predicate Covers(mask: bv32, n: nat)
    decreases n
  {
    n == 0 || (Odd(mask) && Covers(Half(mask), n - 1))
  }

  lemma MaskStep(v: bv32, w: bv32, mask: bv32)
    requires SameUnder(v, w, mask)
    ensures Odd(mask) ==> Bit(v) == Bit(w)
    ensures SameUnder(Half(v), Half(w), Half(mask))
  {
  }

  lemma {:induction false} SameLow(v: bv32, w: bv32, mask: bv32, n: nat)
    requires SameUnder(v, w, mask) && Covers(mask, n)
    ensures LowValue(v, n) == LowValue(w, n)
    decreases n
  {
    hide Half, Bit, Odd, SameUnder;
    if n > 0 {
      MaskStep(v, w, mask);
      SameLow(Half(v), Half(w), Half(mask), n - 1);
    }
  }

  lemma {:induction false} NoValue(n: nat)
    ensures LowValue(0, n) == 0
    decreases n
  {
    assert Half(0) == 0;
    if n > 0 { NoValue(n - 1); }
  }

  lemma CoverStep(mask: bv32, half: bv32, n: nat)
    requires Odd(mask) && Half(mask) == half && Covers(half, n)
    ensures Covers(mask, n + 1)
  {
    hide Odd, Half;
  }

  lemma CoverFour(mask: bv32, rest: bv32, n: nat)
    requires mask & 0xF == 0xF && ByFour(mask) == rest && Covers(rest, n)
    ensures Covers(mask, n + 4)
  {
    FourOdds(mask);
    hide Odd, Half, ByFour;
    CoverStep(Half(Half(Half(mask))), rest, n);
    CoverStep(Half(Half(mask)), Half(Half(Half(mask))), n + 1);
    CoverStep(Half(mask), Half(Half(mask)), n + 2);
    CoverStep(mask, Half(mask), n + 3);
  }

  lemma FourOdds(mask: bv32)
    requires mask & 0xF == 0xF
    ensures Odd(mask) && Odd(Half(mask)) && Odd(Half(Half(mask))) && Odd(Half(Half(Half(mask))))
    ensures Half(Half(Half(Half(mask)))) == ByFour(mask)
  {
  }

  lemma FieldMasks()
    ensures Covers(0xFFF, 12) && Covers(0xF_FFFF, 20)
  {
    CoverFour(0xF, 0, 0);
    CoverFour(0xFF, 0xF, 4);
    CoverFour(0xFFF, 0xFF, 8);
    CoverFour(0xFFFF, 0xFFF, 12);
    CoverFour(0xF_FFFF, 0xFFFF, 16);
  }

  /** A word is its size field, times 2^20, and its number field. */
  lemma Fields(w: bv32)
    ensures Value(w) == LowValue(w, 20) + NUMBERS * LowValue(w >> 20, 12)
    ensures LowValue(w, 20) < NUMBERS && LowValue(w >> 20, 12) < SIZES
  {
    hide LowValue;
    Powers();
    SplitValue(w, 20, 12);
    ShiftedFields(w);
    LowValueBound(w, 20);
    LowValueBound(w >> 20, 12);
  }

  lemma NumberOfFields(w: bv32)
    ensures Number(Value(w)) == LowValue(w, 20) && Size(Value(w)) == LowValue(w >> 20, 12)
  {
    hide LowValue, Value;
    Fields(w);
  }

  // ---- the four operations ----

  lemma NumberOnly(w: bv32)
    requires w >> 20 == 0
    ensures Value(w) == LowValue(w, 20)
  {
    hide LowValue, Value;
    Fields(w);
    NoValue(12);
  }

  lemma SizeOnly(w: bv32)
    requires w >> 12 == 0
    ensures Value(w) == LowValue(w, 12)
  {
    hide LowValue, Shifted;
    ShiftedFields(w);
    SplitValue(w, 12, 20);
    NoValue(20);
  }

  /** Two words that agree in the low 20 bits, or in the low 12. */
  lemma SameFields(v: bv32, w: bv32)
    ensures v & 0xF_FFFF == w & 0xF_FFFF ==> LowValue(v, 20) == LowValue(w, 20)
    ensures v & 0xFFF == w & 0xFFF ==> LowValue(v, 12) == LowValue(w, 12)
  {
    hide LowValue, Covers;
    FieldMasks();
    if v & 0xF_FFFF == w & 0xF_FFFF { SameLow(v, w, 0xF_FFFF, 20); }
    if v & 0xFFF == w & 0xFFF { SameLow(v, w, 0xFFF, 12); }
  }

  lemma NumberBits(w: bv32)
    ensures var v := GetNumberBits(w); v & 0xF_FFFF == w & 0xF_FFFF && v >> 20 == 0
  {
  }

  lemma SizeBits(w: bv32)
    ensures GetSizeBits(w) == w >> 20 && (w >> 20) >> 12 == 0
  {
  }

  lemma NumberSet(w: bv32, n: bv32)
    ensures var v := SetNumberBits(w, n); v & 0xF_FFFF == n & 0xF_FFFF && v >> 20 == w >> 20
  {
  }

  lemma SizeSet(w: bv32, s: bv32)
    ensures var v := SetSizeBits(w, s); v & 0xF_FFFF == w & 0xF_FFFF && (v >> 20) & 0xFFF == s & 0xFFF
  {
  }

  /** get_block_number */
  lemma GetNumberIsNumber(w: bv32)
    ensures Value(GetNumberBits(w)) == Number(Value(w))
  {
    hide LowValue, Value, GetNumberBits;
    NumberBits(w);
    SameFields(GetNumberBits(w), w);
    NumberOnly(GetNumberBits(w));
    NumberOfFields(w);
  }

  /** get_block_size */
  lemma GetSizeIsSize(w: bv32)
    ensures Value(GetSizeBits(w)) == Size(Value(w))
  {
    hide LowValue, Value, GetSizeBits;
    SizeBits(w);
    SizeOnly(w >> 20);
    NumberOfFields(w);
  }

  /** set_block_number */
  lemma SetNumberIsWithNumber(w: bv32, n: bv32)
    ensures Value(SetNumberBits(w, n)) == WithNumber(Value(w), Value(n))
  {
    hide LowValue, Value, SetNumberBits;
    NumberSet(w, n);
    SameFields(SetNumberBits(w, n), n);
    Fields(SetNumberBits(w, n));
    NumberOfFields(w);
    NumberOfFields(n);
  }

  /** set_block_size */
  lemma SetSizeIsWithSize(w: bv32, s: bv32)
    ensures Value(SetSizeBits(w, s)) == WithSize(Value(w), Value(s))
  {
    hide LowValue, Value, SetSizeBits;
    SizeSet(w, s);
    SameFields(SetSizeBits(w, s), w);
    SameFields(SetSizeBits(w, s) >> 20, s);
    Fields(SetSizeBits(w, s));
    NumberOfFields(w);
    LowSize(s);
  }

  lemma LowSize(s: bv32)
    ensures Value(s) % SIZES == LowValue(s, 12)
  {
    hide LowValue;
    Powers();
    SplitValue(s, 12, 20);
    LowValueBound(s, 12);
    var high := LowValue(Shifted(s, 12), 20);
    assert Value(s) == LowValue(s, 12) + SIZES * high;
  }

  // ---- the value and the conversion to nat, byte by byte ----

  function LowByte(w: bv32): bv8 { (w & 0xFF) as bv8 }

  function On(b: bool): nat { if b then 1 else 0 }

  function BitSum(b: bv8): nat {
    On(b & 1 == 1) + 2 * On(b & 2 == 2) + 4 * On(b & 4 == 4) + 8 * On(b & 8 == 8)
    + 16 * On(b & 16 == 16) + 32 * On(b & 32 == 32) + 64 * On(b & 64 == 64) + 128 * On(b & 128 == 128)
  }

  lemma ByteAsNat(b: bv8)
    ensures b as nat == BitSum(b)
  {
  }

  lemma FirstBits(w: bv32)
    ensures var v := ByFour(w);
      BitSum(LowByte(w)) ==
        Bit(w) + 2 * Bit(Half(w)) + 4 * Bit(Half(Half(w))) + 8 * Bit(Half(Half(Half(w))))
        + 16 * (Bit(v) + 2 * Bit(Half(v)) + 4 * Bit(Half(Half(v))) + 8 * Bit(Half(Half(Half(v)))))
  {
  }

  lemma FourBits(w: bv32)
    ensures LowValue(w, 4) == Bit(w) + 2 * Bit(Half(w)) + 4 * Bit(Half(Half(w))) + 8 * Bit(Half(Half(Half(w))))
  {
    hide Bit, Half;
    assert LowValue(Half(w), 3) == Bit(Half(w)) + 2 * LowValue(Half(Half(w)), 2);
    assert LowValue(Half(Half(w)), 2) == Bit(Half(Half(w))) + 2 * LowValue(Half(Half(Half(w))), 1);
  }

  lemma LowByteValue(w: bv32)
    ensures LowValue(w, 8) == LowByte(w) as nat
  {
    hide Bit, Half, LowByte, ByFour, BitSum;
    ByteAsNat(LowByte(w));
    FirstBits(w);
    FourBits(w);
    FourBits(ByFour(w));
    SplitValue(w, 4, 4);
    ShiftedByFour(w);
    assert Pow2(4) == 16;
  }

  lemma ShiftedByBytes(w: bv32)
    ensures Shifted(w, 8) == w >> 8 && Shifted(w >> 8, 8) == w >> 16 && Shifted(w >> 16, 8) == w >> 24
  {
    ByteShifts(w);
    hide ByFour, Half;
    ShiftedByFour(w);
    ShiftedMore(w, 4);
    ShiftedByFour(w >> 8);
    ShiftedMore(w >> 8, 4);
    ShiftedByFour(w >> 16);
    ShiftedMore(w >> 16, 4);
  }

  lemma ByteShifts(w: bv32)
    ensures ByFour(ByFour(w)) == w >> 8 && ByFour(ByFour(w >> 8)) == w >> 16 && ByFour(ByFour(w >> 16)) == w >> 24
  {
  }

  lemma SplitByte(w: bv32, m: nat)
    ensures LowValue(w, 8 + m) == LowByte(w) as nat + 256 * LowValue(Shifted(w, 8), m)
  {
    hide Half, Bit, LowByte;
    LowByteValue(w);
    SplitValue(w, 8, m);
    assert Pow2(4) == 16;
    assert Pow2(8) == 256;
  }

  /** The number a word stands for is its four bytes, each as a number, the first counting least. */
  lemma ValueIsBytes(w: bv32)
    ensures Value(w) == LowByte(w) as nat
      + 256 * (LowByte(w >> 8) as nat + 256 * (LowByte(w >> 16) as nat + 256 * (LowByte(w >> 24) as nat)))
  {
    hide LowByte, LowValue, Shifted;
    ShiftedByBytes(w);
    SplitByte(w, 24);
    SplitByte(w >> 8, 16);
    SplitByte(w >> 16, 8);
    LowByteValue(w >> 24);
  }
}
