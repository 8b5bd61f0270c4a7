/** Polynomials over GF(2) as bit sequences, lowest coefficient first, and their remainder: the two
    forms of examples/assert_by_compute.rs and what the remainder means. */
module Gf2Recursive {

  function Zeroes(l: nat): (r: seq<bool>)
    ensures |r| == l
  {
    if l == 0 then [] else Zeroes(l - 1) + [false]
  }

  function Shift(p: seq<bool>, t: nat): seq<bool> { Zeroes(t) + p }

  function Xor(p: seq<bool>, q: seq<bool>): (r: seq<bool>)
    requires |p| == |q|
    ensures |r| == |p|
  {
    if p == [] then [] else
    var n := |p| - 1;
    Xor(p[..n], q[..n]) + [p[n] != q[n]]
  }

  function Mod(p: seq<bool>, q: seq<bool>): (r: seq<bool>)
    requires |q| > 0
    ensures |r| == |q| - 1
    decreases |p|
  {
    if |p| <= |q| - 1 then p + Zeroes(|q| - 1 - |p|)
    else if p[|p| - 1] then Mod(Xor(p, Shift(q, |p| - |q|))[..|p| - 1], q)
    else Mod(p[..|p| - 1], q)
  }
}

/** The same functions with sequence comprehensions. */
module Gf2Comprehension {

  function Zeroes(l: nat): seq<bool> { seq(l, i => false) }

  function Shift(p: seq<bool>, t: nat): seq<bool> { Zeroes(t) + p }

  function Xor(p: seq<bool>, q: seq<bool>): seq<bool>
    requires |p| == |q|
  {
    seq(|p|, i requires 0 <= i < |p| => p[i] != q[i])
  }

  function Mod(p: seq<bool>, q: seq<bool>): (r: seq<bool>)
    requires |q| > 0
    ensures |r| == |q| - 1
    decreases |p|
  {
    if |p| <= |q| - 1 then p + Zeroes(|q| - 1 - |p|)
    else if p[|p| - 1] then Mod(Xor(p, Shift(q, |p| - |q|))[..|p| - 1], q)
    else Mod(p[..|p| - 1], q)
  }
}

module Gf2Remainder {
  import Gf2Recursive
  import opened Gf2Comprehension

  // ----- the two forms agree

  lemma {:induction false} ZeroesAgree(l: nat)
    ensures Gf2Recursive.Zeroes(l) == Zeroes(l)
  {
    if l > 0 {
      ZeroesAgree(l - 1);
    }
  }

  lemma {:induction false} XorAgree(p: seq<bool>, q: seq<bool>)
    requires |p| == |q|
    ensures Gf2Recursive.Xor(p, q) == Xor(p, q)
  {
    if p != [] {
      var n := |p| - 1;
      XorAgree(p[..n], q[..n]);
      assert Xor(p, q) == Xor(p[..n], q[..n]) + [p[n] != q[n]];
    }
  }

  /** The recursive and the comprehension form compute the same remainder of every dividend. */
  lemma {:induction false} ModAgree(p: seq<bool>, q: seq<bool>)
    requires |q| > 0
    ensures Gf2Recursive.Mod(p, q) == Mod(p, q)
    decreases |p|
  {
    if |p| <= |q| - 1 {
      ZeroesAgree(|q| - 1 - |p|);
    } else {
      var n := |p| - 1;
      ZeroesAgree(|p| - |q|);
      XorAgree(p, Shift(q, |p| - |q|));
      ModAgree(if p[n] then Xor(p, Shift(q, |p| - |q|))[..n] else p[..n], q);
    }
  }

  // ----- linearity

  /** One step of the division: the leading bit is cancelled, if set, and dropped. */
  function Reduced(p: seq<bool>, q: seq<bool>): (r: seq<bool>)
    requires |p| >= |q| > 0
    ensures |r| == |p| - 1
  {
    if p[|p| - 1] then Xor(p, Shift(q, |p| - |q|))[..|p| - 1] else p[..|p| - 1]
  }

  lemma ReducedMod(p: seq<bool>, q: seq<bool>)
    requires |p| >= |q| > 0
    ensures Mod(Reduced(p, q), q) == Mod(p, q)
  {
  }

  lemma ReducedLinear(p: seq<bool>, r: seq<bool>, q: seq<bool>)
    requires |p| == |r| >= |q| > 0
    ensures Reduced(Xor(p, r), q) == Xor(Reduced(p, q), Reduced(r, q))
  {
  }

  lemma {:induction false} ModLinear(p: seq<bool>, r: seq<bool>, q: seq<bool>)
    requires |q| > 0 && |p| == |r|
    ensures Mod(Xor(p, r), q) == Xor(Mod(p, q), Mod(r, q))
    decreases |p|
  {
    if |p| < |q| {
      assert Xor(p, r) + Zeroes(|q| - 1 - |p|) == Xor(p + Zeroes(|q| - 1 - |p|), r + Zeroes(|q| - 1 - |p|));
    } else {
      ModLinear(Reduced(p, q), Reduced(r, q), q);
      ReducedLinear(p, r, q);
    }
  }

  lemma ModIdempotent(p: seq<bool>, q: seq<bool>)
    requires |q| > 0
    ensures Mod(Mod(p, q), q) == Mod(p, q)
  {
  }

  // ----- bit sequences as polynomials

  function Coef(p: seq<bool>, i: nat): bool { i < |p| && p[i] }

  /** The same polynomial, whatever zeroes follow its leading coefficient. */
  ghost predicate Same(p: seq<bool>, q: seq<bool>) {
    forall i: nat :: Coef(p, i) == Coef(q, i)
  }

  function Add(p: seq<bool>, q: seq<bool>): seq<bool> {
    seq(if |p| < |q| then |q| else |p|, i requires i >= 0 => Coef(p, i) != Coef(q, i))
  }

  /** Schoolbook product: a shifted copy of `q` for every coefficient of `a`. */
  function Mul(a: seq<bool>, q: seq<bool>): seq<bool> {
    if a == [] then [] else
    var n := |a| - 1;
    Add(Mul(a[..n], q), if a[n] then Shift(q, n) else [])
  }

  function Quotient(p: seq<bool>, q: seq<bool>): (a: seq<bool>)
    requires |q| > 0
    ensures |a| == if |p| < |q| then 0 else |p| - |q| + 1
    decreases |p|
  {
    if |p| <= |q| - 1 then []
    else if p[|p| - 1] then Quotient(Xor(p, Shift(q, |p| - |q|))[..|p| - 1], q) + [true]
    else Quotient(p[..|p| - 1], q) + [false]
  }

  lemma ReducedCoef(p: seq<bool>, q: seq<bool>, i: nat)
    requires |p| >= |q| > 0 && q[|q| - 1]
    ensures Coef(p, i) == (Coef(Reduced(p, q), i) != (p[|p| - 1] && Coef(Shift(q, |p| - |q|), i)))
  {
  }

  lemma MulCoef(a: seq<bool>, b: bool, q: seq<bool>, i: nat)
    ensures Coef(Mul(a + [b], q), i) == (Coef(Mul(a, q), i) != (b && Coef(Shift(q, |a|), i)))
  {
  }

  lemma DivisionStep(p: seq<bool>, r: seq<bool>, a: seq<bool>, q: seq<bool>)
    requires |p| >= |q| > 0 && q[|q| - 1] && |a| == |p| - |q| && Same(Reduced(p, q), Add(r, Mul(a, q)))
    ensures Same(p, Add(r, Mul(a + [p[|p| - 1]], q)))
  {
    var b := p[|p| - 1];
    forall i: nat ensures Coef(p, i) == Coef(Add(r, Mul(a + [b], q)), i) {
      assert Coef(Reduced(p, q), i) == Coef(Add(r, Mul(a, q)), i);
      ReducedCoef(p, q, i);
      AddCoef(r, Mul(a, q), i);
      MulCoef(a, b, q, i);
      AddCoef(r, Mul(a + [b], q), i);
    }
  }

  /** Division: with the leading bit of `q` set, p = Mod(p, q) + Quotient(p, q) * q. */
  lemma {:induction false} Division(p: seq<bool>, q: seq<bool>)
    requires |q| > 0 && q[|q| - 1]
    ensures Same(p, Add(Mod(p, q), Mul(Quotient(p, q), q)))
    decreases |p|
  {
    if |p| < |q| {
      forall i: nat ensures Coef(p, i) == Coef(Add(Mod(p, q), []), i) {}
    } else {
      Division(Reduced(p, q), q);
      DivisionStep(p, Mod(p, q), Quotient(Reduced(p, q), q), q);
      assert Quotient(p, q) == Quotient(Reduced(p, q), q) + [p[|p| - 1]];
    }
  }

  lemma AddCoef(p: seq<bool>, q: seq<bool>, i: nat)
    ensures Coef(Add(p, q), i) == (Coef(p, i) != Coef(q, i))
  {
  }

  // ----- the remainder is a function of the polynomial

  lemma {:induction false} ModPadded(p: seq<bool>, longer: seq<bool>, q: seq<bool>)
    requires |q| > 0 && |longer| >= |p| && longer == p + Zeroes(|longer| - |p|)
    ensures Mod(longer, q) == Mod(p, q)
    decreases |longer|
  {
    if |longer| == |p| {
      assert longer == p;
    } else {
      var n := |longer| - 1;
      assert longer[..n] == p + Zeroes(n - |p|);
      ModPadded(p, longer[..n], q);
    }
  }

  lemma ShiftTwice(q: seq<bool>, n: nat, t: nat)
    ensures Shift(Shift(q, n), t) == Shift(q, n + t)
  {
  }

  lemma XorShift(p: seq<bool>, s: seq<bool>, t: nat)
    requires |p| == |s|
    ensures Xor(Shift(p, t), Shift(s, t)) == Shift(Xor(p, s), t)
  {
  }

  lemma ShiftEnd(p: seq<bool>, t: nat)
    requires |p| > 0
    ensures var n := |p| - 1;
            |Shift(p, t)| == n + t + 1 && Shift(p, t)[n + t] == p[n] && Shift(p, t)[..n + t] == Shift(p[..n], t)
  {
  }

  lemma ReducedShift(p: seq<bool>, t: nat, q: seq<bool>)
    requires |p| >= |q| > 0
    ensures Reduced(Shift(p, t), q) == Shift(Reduced(p, q), t)
  {
    ShiftEnd(p, t);
    if p[|p| - 1] {
      var s := Shift(q, |p| - |q|);
      ShiftTwice(q, |p| - |q|, t);
      XorShift(p, s, t);
      ShiftEnd(Xor(p, s), t);
    }
  }

  /** Multiplying by a power of x may be done before or after reducing, so each power of x can be
      had from a smaller one. */
  lemma {:induction false} ModShift(p: seq<bool>, t: nat, q: seq<bool>)
    requires |q| > 0
    ensures Mod(Shift(p, t), q) == Mod(Shift(Mod(p, q), t), q)
    decreases |p|
  {
    if |p| < |q| {
      assert Shift(Mod(p, q), t) == Shift(p, t) + Zeroes(|q| - 1 - |p|);
      ModPadded(Shift(p, t), Shift(Mod(p, q), t), q);
    } else {
      ReducedShift(p, t, q);
      ReducedMod(p, q);
      ReducedMod(Shift(p, t), q);
      ModShift(Reduced(p, q), t, q);
    }
  }

  lemma ModSame(p: seq<bool>, r: seq<bool>, q: seq<bool>)
    requires |q| > 0 && Same(p, r)
    ensures Mod(p, q) == Mod(r, q)
  {
    var n := |p| + |r|;
    forall i | 0 <= i < n ensures (p + Zeroes(|r|))[i] == (r + Zeroes(|p|))[i] {
      assert Coef(p, i) == Coef(r, i);
    }
    assert p + Zeroes(|r|) == r + Zeroes(|p|);
    ModPadded(p, p + Zeroes(|r|), q);
    ModPadded(r, r + Zeroes(|p|), q);
  }

  function Padded(p: seq<bool>, n: nat): (r: seq<bool>)
    requires |p| <= n
    ensures |r| == n && forall i | 0 <= i < n :: r[i] == Coef(p, i)
  {
    p + Zeroes(n - |p|)
  }

  lemma AddIsXor(p: seq<bool>, r: seq<bool>, n: nat)
    requires n == if |p| < |r| then |r| else |p|
    ensures Add(p, r) == Xor(Padded(p, n), Padded(r, n))
  {
  }

  lemma ModPaddedTo(p: seq<bool>, q: seq<bool>, n: nat)
    requires |q| > 0 && |p| <= n
    ensures Mod(Padded(p, n), q) == Mod(p, q)
  {
    ModPadded(p, Padded(p, n), q);
  }

  lemma ModOfXor(sum: seq<bool>, p: seq<bool>, r: seq<bool>, q: seq<bool>)
    requires |q| > 0 && |p| == |r| && sum == Xor(p, r)
    ensures Mod(sum, q) == Xor(Mod(p, q), Mod(r, q))
  {
    ModLinear(p, r, q);
  }

  lemma ModAdd(p: seq<bool>, r: seq<bool>, q: seq<bool>)
    requires |q| > 0
    ensures Mod(Add(p, r), q) == Xor(Mod(p, q), Mod(r, q))
  {
    var n := if |p| < |r| then |r| else |p|;
    AddIsXor(p, r, n);
    ModOfXor(Add(p, r), Padded(p, n), Padded(r, n), q);
    ModPaddedTo(p, q, n);
    ModPaddedTo(r, q, n);
  }

  lemma ModZeroes(q: seq<bool>, l: nat)
    requires |q| > 0
    ensures Mod(Zeroes(l), q) == Zeroes(|q| - 1)
  {
    ModPaddedTo([], q, l);
    assert Padded([], l) == Zeroes(l);
    assert Mod([], q) == [] + Zeroes(|q| - 1) == Zeroes(|q| - 1);
  }

  lemma ModShifted(q: seq<bool>, n: nat)
    requires |q| > 0 && q[|q| - 1]
    ensures Mod(Shift(q, n), q) == Zeroes(|q| - 1)
  {
    var p := Shift(q, n);
    assert Xor(p, p)[..|p| - 1] == Zeroes(|p| - 1);
    ModZeroes(q, |p| - 1);
  }

  lemma {:induction false} ModMultiple(a: seq<bool>, q: seq<bool>)
    requires |q| > 0 && q[|q| - 1]
    ensures Mod(Mul(a, q), q) == Zeroes(|q| - 1)
  {
    if a == [] {
      ModZeroes(q, 0);
      assert Zeroes(0) == [];
    } else {
      var n := |a| - 1;
      ModMultiple(a[..n], q);
      ModShifted(q, n);
      ModZeroes(q, 0);
      assert Zeroes(0) == [];
      ModAdd(Mul(a[..n], q), if a[n] then Shift(q, n) else [], q);
    }
  }

  ghost predicate Congruent(p: seq<bool>, r: seq<bool>, q: seq<bool>) {
    exists a :: Same(p, Add(r, Mul(a, q)))
  }

  /** With the leading bit of `q` set, Mod(p, q) is the only polynomial of lower degree that
      differs from `p` by a multiple of `q`. */
  lemma RemainderIff(p: seq<bool>, r: seq<bool>, q: seq<bool>)
    requires |q| > 0 && q[|q| - 1] && |r| == |q| - 1
    ensures r == Mod(p, q) <==> Congruent(p, r, q)
  {
    Division(p, q);
    if Congruent(p, r, q) {
      var a :| Same(p, Add(r, Mul(a, q)));
      ModSame(p, Add(r, Mul(a, q)), q);
      ModAdd(r, Mul(a, q), q);
      ModMultiple(a, q);
      assert Mod(r, q) == r;
      assert Xor(r, Zeroes(|q| - 1)) == r;
    }
  }

  /** `Mod` computes the remainder of every dividend. */
  ghost predicate IsRemainder(q: seq<bool>)
    requires |q| > 0
  {
    forall p, r | |r| == |q| - 1 :: r == Mod(p, q) <==> Congruent(p, r, q)
  }

  lemma {:induction false} MulZero(a: seq<bool>, l: nat)
    ensures Same(Mul(a, Zeroes(l)), [])
  {
    if a != [] {
      var n := |a| - 1;
      MulZero(a[..n], l);
      assert Same(Mul(a[..n], Zeroes(l)), []);
      forall i: nat ensures !Coef(Mul(a, Zeroes(l)), i) {
        assert Coef(Mul(a[..n], Zeroes(l)), i) == Coef([], i);
      }
    }
  }

  /** Zero divides nothing but zero. */
  lemma NotCongruentByZero(n: nat, r: seq<bool>)
    requires |r| == n
    ensures !Congruent(Zeroes(n) + [true], r, Zeroes(n + 1))
  {
    var p, q := Zeroes(n) + [true], Zeroes(n + 1);
    forall a ensures !Same(p, Add(r, Mul(a, q))) {
      MulZero(a, n + 1);
      assert Coef(Mul(a, q), n) == Coef([], n);
      AddCoef(r, Mul(a, q), n);
      assert Coef(p, n) != Coef(Add(r, Mul(a, q)), n);
    }
  }

  /** Without its leading bit both 0 and q itself are short enough to be remainders of 0. */
  lemma TwoRemainders(q: seq<bool>)
    requires |q| > 0 && !q[|q| - 1]
    ensures Congruent([], Zeroes(|q| - 1), q) && Congruent([], q[..|q| - 1], q)
  {
    var n := |q| - 1;
    assert Same([], Add(Zeroes(n), Mul([], q)));
    assert Mul([true], q) == Add([], Shift(q, 0));
    forall i: nat ensures Coef([], i) == Coef(Add(q[..n], Mul([true], q)), i) {}
    assert Same([], Add(q[..n], Mul([true], q)));
  }

  lemma NotRemainder(q: seq<bool>)
    requires |q| > 0 && !q[|q| - 1]
    ensures !IsRemainder(q)
  {
    var n := |q| - 1;
    if q[..n] == Zeroes(n) {
      assert q == Zeroes(n + 1);
      var p := Zeroes(n) + [true];
      NotCongruentByZero(n, Mod(p, q));
      assert !(Mod(p, q) == Mod(p, q) <==> Congruent(p, Mod(p, q), q));
    } else {
      TwoRemainders(q);
      var r := if Mod([], q) == Zeroes(n) then q[..n] else Zeroes(n);
      assert !(r == Mod([], q) <==> Congruent([], r, q));
    }
  }

  /** `Mod` computes remainders by `q` exactly when the leading bit of `q` is set, which its
      caller can see. */
  lemma RemainderIffLeadingBit(q: seq<bool>)
    requires |q| > 0
    ensures IsRemainder(q) <==> q[|q| - 1]
  {
    if q[|q| - 1] {
      forall p, r | |r| == |q| - 1 ensures r == Mod(p, q) <==> Congruent(p, r, q) {
        RemainderIff(p, r, q);
      }
    } else {
      NotRemainder(q);
    }
  }

  // ----- the powers of x that a CRC table holds

  function BitsOfInt(n: nat, len: nat): (r: seq<bool>)
    ensures |r| == len
    decreases len
  {
    if len == 0 then [] else [n % 2 == 1] + BitsOfInt(n / 2, len - 1)
  }

  function IntOfBits(bits: seq<bool>): nat {
    if bits == [] then 0 else (if bits[0] then 1 else 0) + 2 * IntOfBits(bits[1..])
  }

  function Pow2(k: nat): (r: nat)
    ensures r > 0
  {
    if k == 0 then 1 else 2 * Pow2(k - 1)
  }

  lemma {:induction false} BitsRoundTrip(n: nat, len: nat)
    requires n < Pow2(len)
    ensures IntOfBits(BitsOfInt(n, len)) == n
    decreases len
  {
    if len > 0 {
      BitsRoundTrip(n / 2, len - 1);
      assert BitsOfInt(n, len)[1..] == BitsOfInt(n / 2, len - 1);
    }
  }

  /** The leading bit is set when the number needs all `len` bits. */
  lemma {:induction false} LeadingBitIff(n: nat, len: nat)
    requires len > 0 && n < Pow2(len)
    ensures BitsOfInt(n, len)[len - 1] <==> n >= Pow2(len - 1)
    decreases len
  {
    if len > 1 {
      LeadingBitIff(n / 2, len - 1);
    }
  }

  function Reverse(s: seq<bool>): (r: seq<bool>)
    ensures |r| == |s|
  {
    if s == [] then [] else Reverse(s[1..]) + [s[0]]
  }

  lemma {:induction false} ReverseAt(s: seq<bool>, k: nat)
    requires k < |s|
    ensures Reverse(s)[k] == s[|s| - 1 - k]
  {
    if k < |s| - 1 {
      ReverseAt(s[1..], k);
    }
  }

  lemma ReverseTwice(s: seq<bool>)
    ensures Reverse(Reverse(s)) == s
  {
    forall k | 0 <= k < |s| ensures Reverse(Reverse(s))[k] == s[k] {
      ReverseAt(Reverse(s), k);
      ReverseAt(s, |s| - 1 - k);
    }
  }

  /** The CRC32C generator, section 12.1 of RFC 3720, with its leading coefficient. */
  const CRC32C: nat := 0x1_1EDC_6F41

  function Generator(): seq<bool> { BitsOfInt(CRC32C, 33) }

  function PowModCrc(n: nat): seq<bool>
    requires n >= 33
  {
    Reverse(Mod(Zeroes(n - 33) + [true], Generator()))
  }

  lemma {:induction false} Pow2Sum(a: nat, b: nat)
    ensures Pow2(a + b) == Pow2(a) * Pow2(b)
  {
    if a > 0 {
      Pow2Sum(a - 1, b);
    }
  }

  lemma Pow2Doubles(k: nat, v: nat)
    requires Pow2(k) == v
    ensures Pow2(k + k) == v * v
  {
    Pow2Sum(k, k);
  }

  lemma Pow2Of32(k: nat)
    requires k == 8
    ensures Pow2(k + k + k + k) == 0x1_0000_0000
  {
    assert Pow2(8) == 256;
    Pow2Doubles(k, 256);
    Pow2Doubles(k + k, 65536);
    assert k + k + (k + k) == k + k + k + k;
  }

  lemma GeneratorLeads(len: nat)
    requires len == 33
    ensures BitsOfInt(CRC32C, len)[len - 1]
  {
    Pow2Of32(8);
    LeadingBitIff(CRC32C, len);
  }

  /** A table entry, read backwards, is the remainder of a power of x and nothing else is. */
  lemma PowModCrcIff(n: nat, entry: seq<bool>)
    requires n >= 33 && |entry| == 32
    ensures entry == PowModCrc(n) <==> Congruent(Zeroes(n - 33) + [true], Reverse(entry), Generator())
  {
    var x := Zeroes(n - 33) + [true];
    GeneratorLeads(33);
    RemainderIff(x, Reverse(entry), Generator());
    ReverseTwice(entry);
    ReverseTwice(Mod(x, Generator()));
  }
}
