/** The powers of x modulo the CRC32C generator as 32-bit words, and the table entry that
    examples/assert_by_compute.rs has the verifier compute. */
module Crc32c {
  import opened Gf2Comprehension
  import opened Gf2Remainder

  // ----- single bits of numbers

  lemma {:induction false} BitAt(n: nat, len: nat, i: nat)
    requires i < len
    ensures BitsOfInt(n, len)[i] <==> n / Pow2(i) % 2 == 1
    decreases i
  {
    if i > 0 {
      BitAt(n / 2, len - 1, i - 1);
      HalfThenDivide(n, Pow2(i - 1));
    }
  }

  lemma HalfThenDivide(n: nat, d: nat)
    requires d > 0
    ensures n / 2 / d == n / (2 * d)
  {
    var q, r := n / (2 * d), n % (2 * d);
    assert n == 2 * (d * q) + r;
    assert n / 2 == d * q + r / 2 && r / 2 < d;
    DivideExactly(q, r / 2, d);
  }

  lemma DivideExactly(q: nat, r: nat, d: nat)
    requires r < d
    ensures (d * q + r) / d == q
  {
    var n := d * q + r;
    var k := n / d - q;
    assert d * k == r - n % d;
    assert k >= 1 ==> d * k >= d;
    assert k <= -1 ==> d * k <= 0 - d;
  }

  lemma PowersOfTwo()
    ensures Pow2(0) == 0x1 && Pow2(1) == 0x2 && Pow2(2) == 0x4 && Pow2(3) == 0x8
    ensures Pow2(4) == 0x10 && Pow2(5) == 0x20 && Pow2(6) == 0x40 && Pow2(7) == 0x80
    ensures Pow2(8) == 0x100 && Pow2(9) == 0x200 && Pow2(10) == 0x400 && Pow2(11) == 0x800
    ensures Pow2(12) == 0x1000 && Pow2(13) == 0x2000 && Pow2(14) == 0x4000 && Pow2(15) == 0x8000
    ensures Pow2(16) == 0x10000 && Pow2(17) == 0x20000 && Pow2(18) == 0x40000 && Pow2(19) == 0x80000
    ensures Pow2(20) == 0x100000 && Pow2(21) == 0x200000 && Pow2(22) == 0x400000 && Pow2(23) == 0x800000
    ensures Pow2(24) == 0x1000000 && Pow2(25) == 0x2000000 && Pow2(26) == 0x4000000 && Pow2(27) == 0x8000000
    ensures Pow2(28) == 0x10000000 && Pow2(29) == 0x20000000 && Pow2(30) == 0x40000000 && Pow2(31) == 0x80000000
    ensures Pow2(32) == 0x1_0000_0000
  {
  }

  // ----- words

  /** The bits of `x` are the coefficients of `p`, the constant one lowest. */
  predicate Word(p: seq<bool>, x: bv32) {
    |p| == 32 && LowBits(p, x) && ThirdBits(p, x) && TopBits(p, x)
  }

  predicate LowBits(p: seq<bool>, x: bv32)
    requires |p| == 32
  {
    && p[0] == (x & 0x1 != 0) && p[1] == (x & 0x2 != 0)
    && p[2] == (x & 0x4 != 0) && p[3] == (x & 0x8 != 0)
    && p[4] == (x & 0x10 != 0) && p[5] == (x & 0x20 != 0)
    && p[6] == (x & 0x40 != 0) && p[7] == (x & 0x80 != 0)
    && p[8] == (x & 0x100 != 0) && p[9] == (x & 0x200 != 0)
    && p[10] == (x & 0x400 != 0) && p[11] == (x & 0x800 != 0)
    && p[12] == (x & 0x1000 != 0) && p[13] == (x & 0x2000 != 0)
    && p[14] == (x & 0x4000 != 0) && p[15] == (x & 0x8000 != 0)
  }

  predicate ThirdBits(p: seq<bool>, x: bv32)
    requires |p| == 32
  {
    && p[16] == (x & 0x10000 != 0) && p[17] == (x & 0x20000 != 0)
    && p[18] == (x & 0x40000 != 0) && p[19] == (x & 0x80000 != 0)
    && p[20] == (x & 0x100000 != 0) && p[21] == (x & 0x200000 != 0)
    && p[22] == (x & 0x400000 != 0) && p[23] == (x & 0x800000 != 0)
  }

  predicate TopBits(p: seq<bool>, x: bv32)
    requires |p| == 32
  {
    && p[24] == (x & 0x1000000 != 0) && p[25] == (x & 0x2000000 != 0)
    && p[26] == (x & 0x4000000 != 0) && p[27] == (x & 0x8000000 != 0)
    && p[28] == (x & 0x10000000 != 0) && p[29] == (x & 0x20000000 != 0)
    && p[30] == (x & 0x40000000 != 0) && p[31] == (x & 0x80000000 != 0)
  }

  lemma BitIs(n: nat, len: nat, i: nat, d: nat)
    requires i < len && d == Pow2(i)
    ensures BitsOfInt(n, len)[i] <==> n / d % 2 == 1
  {
    BitAt(n, len, i);
  }

  /** The bits of a number are those of its low and of its high part. */
  lemma {:induction false} BitsSplit(lo: nat, hi: nat, a: nat, b: nat)
    requires lo < Pow2(a)
    ensures BitsOfInt(lo + Pow2(a) * hi, a + b) == BitsOfInt(lo, a) + BitsOfInt(hi, b)
    decreases a
  {
    if a == 0 {
      assert lo + Pow2(a) * hi == hi;
      assert BitsOfInt(lo, a) + BitsOfInt(hi, b) == BitsOfInt(hi, b);
    } else {
      var p := Pow2(a - 1) * hi;
      assert Pow2(a) * hi == 2 * p;
      assert (lo + 2 * p) % 2 == lo % 2 && (lo + 2 * p) / 2 == lo / 2 + p;
      BitsSplit(lo / 2, hi, a - 1, b);
      assert BitsOfInt(lo, a) == [lo % 2 == 1] + BitsOfInt(lo / 2, a - 1);
    }
  }

  lemma PartsOf(n: nat, lo: nat, hi: nat, a: nat, b: nat)
    requires lo < Pow2(a) && n == lo + Pow2(a) * hi
    ensures BitsOfInt(n, a + b) == BitsOfInt(lo, a) + BitsOfInt(hi, b)
  {
    BitsSplit(lo, hi, a, b);
  }

  lemma GeneratorLow(len: nat)
    requires len == 33
    ensures var p := BitsOfInt(CRC32C, len);
            && p[0] && !p[1] && !p[2] && !p[3] && !p[4] && !p[5] && p[6] && !p[7]
            && p[8] && p[9] && p[10] && p[11] && !p[12] && p[13] && p[14] && !p[15]
  {
    PowersOfTwo();
    BitIs(CRC32C, len, 0, 0x1); BitIs(CRC32C, len, 1, 0x2); BitIs(CRC32C, len, 2, 0x4); BitIs(CRC32C, len, 3, 0x8);
    BitIs(CRC32C, len, 4, 0x10); BitIs(CRC32C, len, 5, 0x20); BitIs(CRC32C, len, 6, 0x40); BitIs(CRC32C, len, 7, 0x80);
    BitIs(CRC32C, len, 8, 0x100); BitIs(CRC32C, len, 9, 0x200);
    BitIs(CRC32C, len, 10, 0x400); BitIs(CRC32C, len, 11, 0x800);
    BitIs(CRC32C, len, 12, 0x1000); BitIs(CRC32C, len, 13, 0x2000);
    BitIs(CRC32C, len, 14, 0x4000); BitIs(CRC32C, len, 15, 0x8000);
  }

  lemma GeneratorThird(n: nat, len: nat)
    requires n == 0x1_1edc && len == 17
    ensures var p := BitsOfInt(n, len);
            && !p[0] && !p[1] && p[2] && p[3] && p[4] && !p[5] && p[6] && p[7]
  {
    PowersOfTwo();
    BitIs(n, len, 0, 0x1); BitIs(n, len, 1, 0x2); BitIs(n, len, 2, 0x4); BitIs(n, len, 3, 0x8);
    BitIs(n, len, 4, 0x10); BitIs(n, len, 5, 0x20); BitIs(n, len, 6, 0x40); BitIs(n, len, 7, 0x80);
  }

  lemma GeneratorTop(n: nat, len: nat)
    requires n == 0x1_1edc && len == 17
    ensures var p := BitsOfInt(n, len);
            && !p[8] && p[9] && p[10] && p[11] && p[12] && !p[13] && !p[14] && !p[15]
            && p[16]
  {
    PowersOfTwo();
    BitIs(n, len, 8, 0x100); BitIs(n, len, 9, 0x200); BitIs(n, len, 10, 0x400); BitIs(n, len, 11, 0x800);
    BitIs(n, len, 12, 0x1000); BitIs(n, len, 13, 0x2000); BitIs(n, len, 14, 0x4000); BitIs(n, len, 15, 0x8000);
    BitIs(n, len, 16, 0x10000);
  }

  lemma GeneratorHigh(len: nat)
    requires len == 16
    ensures var p := BitsOfInt(CRC32C, len + (len + 1));
            && !p[16] && !p[17] && p[18] && p[19] && p[20] && !p[21] && p[22] && p[23]
            && !p[24] && p[25] && p[26] && p[27] && p[28] && !p[29] && !p[30] && !p[31]
            && p[32]
  {
    PowersOfTwo();
    PartsOf(CRC32C, 0x6f41, 0x1_1edc, len, len + 1);
    GeneratorThird(0x1_1edc, len + 1);
    GeneratorTop(0x1_1edc, len + 1);
  }

  /** The generator is x^32 + x^28 + x^27 + x^26 + x^25 + x^23 + x^22 + x^20 + x^19 + x^18 + x^14 + x^13
      + x^11 + x^10 + x^9 + x^8 + x^6 + 1. */
  lemma GeneratorCoefficients(i: nat)
    ensures Coef(Generator(), i) <==> i in {0, 6, 8, 9, 10, 11, 13, 14, 18, 19, 20, 22, 23, 25, 26, 27, 28, 32}
  {
    GeneratorLow(33);
    GeneratorHigh(16);
  }

  lemma GeneratorWord()
    ensures Word(Generator()[..32], 0x1edc_6f41)
  {
    GeneratorLow(33);
    GeneratorHigh(16);
  }

  // ----- powers of x

  /** The next power of x. */
  function TimesX(x: bv32): bv32 {
    if x & 0x8000_0000 != 0 then (x << 1) ^ 0x1edc_6f41 else x << 1
  }

  /** One step of the division of a shifted remainder, coefficient by coefficient. */
  lemma ReducedAt(p: seq<bool>, q: seq<bool>, i: nat)
    requires |p| + 1 == |q| && i < |p|
    ensures |Reduced(Shift(p, 1), q)| == |p|
    ensures Reduced(Shift(p, 1), q)[i] == ((i > 0 && p[i - 1]) != (p[|p| - 1] && q[i]))
  {
    assert Shift(q, 0) == q;
  }

  ghost predicate Shifted(p: seq<bool>, g: seq<bool>, r: seq<bool>) {
    |p| == |g| == |r| == 32 && forall i | 0 <= i < 32 :: r[i] == ((i > 0 && p[i - 1]) != (p[31] && g[i]))
  }

  lemma TimesXBit(x: bv32, m: bv32)
    requires m & (m - 1) == 0
    ensures TimesX(x) & m != 0 <==> (x & (m >> 1) != 0) != (x & 0x8000_0000 != 0 && 0x1edc_6f41 & m != 0)
  {
    ShiftUnderMask(x, m);
    XorUnderMask(x << 1, 0x1edc_6f41, m);
  }

  lemma XorUnderMask(x: bv32, y: bv32, m: bv32)
    requires m & (m - 1) == 0
    ensures (x ^ y) & m != 0 <==> (x & m != 0) != (y & m != 0)
  {
  }

  lemma ShiftUnderMask(x: bv32, m: bv32)
    ensures (x << 1) & m != 0 <==> x & (m >> 1) != 0
  {
  }

  lemma TimesXLow(p: seq<bool>, g: seq<bool>, r: seq<bool>, x: bv32)
    requires Word(p, x) && Word(g, 0x1edc_6f41) && Shifted(p, g, r)
    ensures LowBits(r, TimesX(x))
  {
    TimesXBit(x, 0x1); TimesXBit(x, 0x2); TimesXBit(x, 0x4); TimesXBit(x, 0x8);
    TimesXBit(x, 0x10); TimesXBit(x, 0x20); TimesXBit(x, 0x40); TimesXBit(x, 0x80);
    TimesXBit(x, 0x100); TimesXBit(x, 0x200); TimesXBit(x, 0x400); TimesXBit(x, 0x800);
    TimesXBit(x, 0x1000); TimesXBit(x, 0x2000); TimesXBit(x, 0x4000); TimesXBit(x, 0x8000);
  }

  lemma TimesXThird(p: seq<bool>, g: seq<bool>, r: seq<bool>, x: bv32)
    requires Word(p, x) && Word(g, 0x1edc_6f41) && Shifted(p, g, r)
    ensures ThirdBits(r, TimesX(x))
  {
    TimesXBit(x, 0x10000); TimesXBit(x, 0x20000); TimesXBit(x, 0x40000); TimesXBit(x, 0x80000);
    TimesXBit(x, 0x100000); TimesXBit(x, 0x200000); TimesXBit(x, 0x400000); TimesXBit(x, 0x800000);
  }

  lemma TimesXTop(p: seq<bool>, g: seq<bool>, r: seq<bool>, x: bv32)
    requires Word(p, x) && Word(g, 0x1edc_6f41) && Shifted(p, g, r)
    ensures TopBits(r, TimesX(x))
  {
    TimesXBit(x, 0x1000000); TimesXBit(x, 0x2000000); TimesXBit(x, 0x4000000); TimesXBit(x, 0x8000000);
    TimesXBit(x, 0x10000000); TimesXBit(x, 0x20000000); TimesXBit(x, 0x40000000); TimesXBit(x, 0x80000000);
  }

  /** Multiplying by x and reducing is one step on words. */
  lemma TimesXReduces(p: seq<bool>, q: seq<bool>, x: bv32)
    requires Word(p, x) && |q| == 33 && Word(q[..32], 0x1edc_6f41)
    ensures |Shift(p, 1)| == 33 && Word(Reduced(Shift(p, 1), q), TimesX(x))
  {
    var r, g := Reduced(Shift(p, 1), q), q[..32];
    forall i | 0 <= i < 32 ensures |r| == 32 && r[i] == ((i > 0 && p[i - 1]) != (p[31] && g[i])) {
      ReducedAt(p, q, i);
    }
    TimesXLow(p, g, r, x);
    TimesXThird(p, g, r, x);
    TimesXTop(p, g, r, x);
  }

  function PowerOfX(k: nat): seq<bool> { Zeroes(k) + [true] }

  /** `x` holds the coefficients of the k-th power reduced. */
  ghost predicate IsPower(k: nat, x: bv32) {
    Word(Mod(PowerOfX(k), Generator()), x)
  }

  lemma ShortMod(p: seq<bool>, q: seq<bool>)
    requires |p| + 1 == |q|
    ensures Mod(p, q) == p
  {
  }

  lemma HighestPower()
    ensures Mod(PowerOfX(31), Generator()) == PowerOfX(31) && IsPower(31, 0x8000_0000)
  {
    ShortMod(PowerOfX(31), Generator());
  }

  lemma ModShiftTo(p: seq<bool>, longer: seq<bool>, q: seq<bool>)
    requires |q| > 0 && longer == Shift(p, 1)
    ensures Mod(longer, q) == Mod(Shift(Mod(p, q), 1), q)
  {
    ModShift(p, 1, q);
  }

  lemma ReduceOnce(p: seq<bool>, q: seq<bool>)
    requires |p| + 1 == |q| && |p| > 0
    ensures |Shift(p, 1)| == |q| && Mod(Shift(p, 1), q) == Reduced(Shift(p, 1), q)
  {
    ReducedMod(Shift(p, 1), q);
    ShortMod(Reduced(Shift(p, 1), q), q);
  }

  lemma PowerShift(k: nat)
    ensures PowerOfX(k + 1) == Shift(PowerOfX(k), 1)
  {
  }

  lemma PowerReduced(k: nat, q: seq<bool>)
    requires |q| > 1
    ensures |Shift(Mod(PowerOfX(k), q), 1)| == |q|
    ensures Mod(PowerOfX(k + 1), q) == Reduced(Shift(Mod(PowerOfX(k), q), 1), q)
  {
    PowerShift(k);
    ModShiftTo(PowerOfX(k), PowerOfX(k + 1), q);
    ReduceOnce(Mod(PowerOfX(k), q), q);
  }

  lemma NextPower(k: nat, x: bv32)
    requires IsPower(k, x)
    ensures IsPower(k + 1, TimesX(x))
  {
    PowerReduced(k, Generator());
    GeneratorWord();
    TimesXReduces(Mod(PowerOfX(k), Generator()), Generator(), x);
  }

  lemma FourMore(k: nat, x: bv32)
    requires IsPower(k, x)
    ensures IsPower(k + 4, TimesX(TimesX(TimesX(TimesX(x)))))
  {
    NextPower(k, x);
    NextPower(k + 1, TimesX(x));
    NextPower(k + 2, TimesX(TimesX(x)));
    NextPower(k + 3, TimesX(TimesX(TimesX(x))));
  }

  lemma EightMore(k: nat, x: bv32)
    requires IsPower(k, x)
    ensures IsPower(k + 8, TimesX(TimesX(TimesX(TimesX(TimesX(TimesX(TimesX(TimesX(x)))))))))
  {
    FourMore(k, x);
    FourMore(k + 4, TimesX(TimesX(TimesX(TimesX(x)))));
  }

  lemma Powers()
    ensures IsPower(95, 0xe4be_3c92)
  {
    HighestPower();
    EightMore(31, 0x8000_0000);
    EightMore(39, 0xc0c1_d64f);
    EightMore(47, 0xee19_45c8);
    EightMore(55, 0x7e49_82a5);
    EightMore(63, 0x1d55_a2bb);
    EightMore(71, 0x35f6_881c);
    EightMore(79, 0x98d6_0cf7);
    EightMore(87, 0x1334_c016);
  }

  // ----- the table entry

  lemma LowerLow(n: nat, len: nat)
    requires n == 0x7d27 && len == 16
    ensures var p := BitsOfInt(n, len);
            && p[0] && p[1] && p[2] && !p[3] && !p[4] && p[5] && !p[6] && !p[7]
  {
    PowersOfTwo();
    BitIs(n, len, 0, 0x1); BitIs(n, len, 1, 0x2); BitIs(n, len, 2, 0x4); BitIs(n, len, 3, 0x8);
    BitIs(n, len, 4, 0x10); BitIs(n, len, 5, 0x20); BitIs(n, len, 6, 0x40); BitIs(n, len, 7, 0x80);
  }

  lemma LowerHigh(n: nat, len: nat)
    requires n == 0x7d27 && len == 16
    ensures var p := BitsOfInt(n, len);
            && p[8] && !p[9] && p[10] && p[11] && p[12] && p[13] && p[14] && !p[15]
  {
    PowersOfTwo();
    BitIs(n, len, 8, 0x100); BitIs(n, len, 9, 0x200); BitIs(n, len, 10, 0x400); BitIs(n, len, 11, 0x800);
    BitIs(n, len, 12, 0x1000); BitIs(n, len, 13, 0x2000); BitIs(n, len, 14, 0x4000); BitIs(n, len, 15, 0x8000);
  }

  lemma UpperLow(n: nat, len: nat)
    requires n == 0x493c && len == 16
    ensures var p := BitsOfInt(n, len);
            && !p[0] && !p[1] && p[2] && p[3] && p[4] && p[5] && !p[6] && !p[7]
  {
    PowersOfTwo();
    BitIs(n, len, 0, 0x1); BitIs(n, len, 1, 0x2); BitIs(n, len, 2, 0x4); BitIs(n, len, 3, 0x8);
    BitIs(n, len, 4, 0x10); BitIs(n, len, 5, 0x20); BitIs(n, len, 6, 0x40); BitIs(n, len, 7, 0x80);
  }

  lemma UpperHigh(n: nat, len: nat)
    requires n == 0x493c && len == 16
    ensures var p := BitsOfInt(n, len);
            && p[8] && !p[9] && !p[10] && p[11] && !p[12] && !p[13] && p[14] && !p[15]
  {
    PowersOfTwo();
    BitIs(n, len, 8, 0x100); BitIs(n, len, 9, 0x200); BitIs(n, len, 10, 0x400); BitIs(n, len, 11, 0x800);
    BitIs(n, len, 12, 0x1000); BitIs(n, len, 13, 0x2000); BitIs(n, len, 14, 0x4000); BitIs(n, len, 15, 0x8000);
  }

  lemma NumberBits(n: nat, len: nat)
    requires n == 0x493c_7d27 && len == 16
    ensures var p := BitsOfInt(n, len + len);
            && p[0] && p[1] && p[2] && !p[3] && !p[4] && p[5] && !p[6] && !p[7]
            && p[8] && !p[9] && p[10] && p[11] && p[12] && p[13] && p[14] && !p[15]
            && !p[16] && !p[17] && p[18] && p[19] && p[20] && p[21] && !p[22] && !p[23]
            && p[24] && !p[25] && !p[26] && p[27] && !p[28] && !p[29] && p[30] && !p[31]
  {
    PowersOfTwo();
    PartsOf(n, 0x7d27, 0x493c, len, len);
    LowerLow(0x7d27, len);
    LowerHigh(0x7d27, len);
    UpperLow(0x493c, len);
    UpperHigh(0x493c, len);
  }

  lemma WordBackwards(q: seq<bool>, p: seq<bool>, r: seq<bool>)
    requires |q| == |p| == |r| == 32 && forall i | 0 <= i < 32 :: r[i] == p[31 - i]
    requires
            && q[0] && q[1] && q[2] && !q[3] && !q[4] && q[5] && !q[6] && !q[7]
            && q[8] && !q[9] && q[10] && q[11] && q[12] && q[13] && q[14] && !q[15]
            && !q[16] && !q[17] && q[18] && q[19] && q[20] && q[21] && !q[22] && !q[23]
            && q[24] && !q[25] && !q[26] && q[27] && !q[28] && !q[29] && q[30] && !q[31]
    requires
            && !p[0] && p[1] && !p[2] && !p[3] && p[4] && !p[5] && !p[6] && p[7]
            && !p[8] && !p[9] && p[10] && p[11] && p[12] && p[13] && !p[14] && !p[15]
            && !p[16] && p[17] && p[18] && p[19] && p[20] && p[21] && !p[22] && p[23]
            && !p[24] && !p[25] && p[26] && !p[27] && !p[28] && p[29] && p[30] && p[31]
    ensures q == r
  {
    SameByte(q, r, 0);
    SameByte(q, r, 8);
    SameByte(q, r, 16);
    SameByte(q, r, 24);
  }

  lemma SameByte(a: seq<bool>, b: seq<bool>, k: nat)
    requires |a| == |b| >= k + 8
    requires a[k] == b[k] && a[k + 1] == b[k + 1] && a[k + 2] == b[k + 2] && a[k + 3] == b[k + 3]
    requires a[k + 4] == b[k + 4] && a[k + 5] == b[k + 5] && a[k + 6] == b[k + 6] && a[k + 7] == b[k + 7]
    ensures forall i | k <= i < k + 8 :: a[i] == b[i]
  {
  }

  lemma PowerBits(p: seq<bool>)
    requires Word(p, 0xe4be_3c92)
    ensures
            && !p[0] && p[1] && !p[2] && !p[3] && p[4] && !p[5] && !p[6] && p[7]
            && !p[8] && !p[9] && p[10] && p[11] && p[12] && p[13] && !p[14] && !p[15]
            && !p[16] && p[17] && p[18] && p[19] && p[20] && p[21] && !p[22] && p[23]
            && !p[24] && !p[25] && p[26] && !p[27] && !p[28] && p[29] && p[30] && p[31]
  {
  }

  lemma ReverseAll(p: seq<bool>)
    ensures forall i | 0 <= i < |p| :: Reverse(p)[i] == p[|p| - 1 - i]
  {
    forall i | 0 <= i < |p| ensures Reverse(p)[i] == p[|p| - 1 - i] {
      ReverseAt(p, i);
    }
  }

  /** x^95 reduced and read backwards. */
  lemma PowerOf128(n: nat, len: nat)
    requires n == 0x493c_7d27 && len == 32
    ensures BitsOfInt(n, len) == PowModCrc(128)
  {
    Powers();
    BackwardsFrom(Mod(PowerOfX(95), Generator()), n, 16);
  }

  lemma BackwardsFrom(p: seq<bool>, n: nat, len: nat)
    requires Word(p, 0xe4be_3c92) && n == 0x493c_7d27 && len == 16
    ensures BitsOfInt(n, len + len) == Reverse(p)
  {
    ReverseAll(p);
    PowerBits(p);
    NumberBits(n, len);
    WordBackwards(BitsOfInt(n, len + len), p, Reverse(p));
  }

  lemma {:induction false} BitsOfZero(len: nat)
    ensures BitsOfInt(0, len) == Zeroes(len)
  {
    if len > 0 {
      BitsOfZero(len - 1);
    }
  }

  lemma ReversedPower(k: nat)
    ensures Reverse(PowerOfX(k)) == BitsOfInt(1, k + 1)
  {
    ReverseAll(PowerOfX(k));
    BitsOfZero(k);
    assert BitsOfInt(1, k + 1) == [true] + BitsOfInt(0, k);
  }

  /** x^31 needs no reduction. */
  lemma PowerOf64()
    ensures BitsOfInt(1, 32) == PowModCrc(64)
  {
    HighestPower();
    ReversedPower(31);
  }

  /** What the source has the verifier compute: the first entry of the table is made of the two
      reduced powers of x, each read backwards. */
  lemma FirstEntry(n: nat, len: nat)
    requires n == 0x0000_0001_493c_7d27 && len == 64
    ensures BitsOfInt(n, len) == PowModCrc(128) + PowModCrc(64)
  {
    PowersOfTwo();
    PartsOf(n, 0x493c_7d27, 1, 32, 32);
    PowerOf128(0x493c_7d27, 32);
    PowerOf64();
  }
}