/** The descent of examples/imo_1988_6.rs: if a * a + b * b is a multiple of a * b + 1, the quotient
    is a perfect square. */
module VietaJumping {

  /** The other root of a quadratic that has one integer root. */
  lemma VietaJump(b: int, c: int, x: int)
    requires x * x - b * x + c == 0
    ensures (b - x) * (b - x) - b * (b - x) + c == 0 && (b - x) * x == c
  {
  }

  lemma NoSquareIsTwo(a: int)
    ensures a * a != 2
  {
  }

  predicate Solution(a: int, b: int, q: int) {
    a >= 0 && b >= 0 && a * a + b * b == (a * b + 1) * q
  }

  /** Jumping from (a, b) to (a, q * a - b) stays among the solutions and goes down. */
  lemma JumpDown(a: int, b: int, q: int)
    requires Solution(a, b, q) && q > 2 && 0 < a < b
    ensures Solution(a, q * a - b, q) && q * a - b < b
  {
    var b1 := q * a - b;
    assert b * b - (q * a) * b + (a * a - q) == 0 by {
      assert (a * b + 1) * q == (q * a) * b + q;
    }
    VietaJump(q * a, a * a - q, b);
    assert (q * a) * b1 == (a * b1) * q;
    assert a * a + b1 * b1 == (a * b1 + 1) * q;
    if b1 > a {
      ProductGrows(a, b1, b);
    }
    if b1 < 0 {
      NegativeFails(a, b1, q);
    }
  }

  lemma ProductGrows(a: int, x: int, y: int)
    requires 0 < a < x && a < y
    ensures x * y > a * a
  {
  }

  lemma NegativeFails(a: int, b: int, q: int)
    requires a > 0 && b < 0 && q > 0
    ensures a * a + b * b > (a * b + 1) * q
  {
    assert a * b <= -1 by { assert a * (-b) >= 1; }
    assert (a * b + 1) * q <= 0;
    assert a * a > 0;
    assert b * b >= 0;
  }

  lemma NegativeQuotientFails(a: int, b: int, q: int)
    requires a >= 0 && b >= 0 && q < 0
    ensures a * a + b * b > (a * b + 1) * q
  {
  }

  lemma EqualFails(a: int, q: int)
    requires q > 2
    ensures a * a + a * a < (a * a + 1) * q
  {
  }

  lemma TwoFails(a: int, b: int)
    ensures a * a + b * b != (a * b + 1) * 2
  {
    assert (a - b) * (a - b) == a * a - 2 * (a * b) + b * b;
    NoSquareIsTwo(a - b);
  }

  function SquareRootOrdered(a: int, b: int, q: int): (r: int)
    requires Solution(a, b, q) && q > 2 && a < b
    ensures r >= 0 && r * r == q
    decreases a + b, 0
  {
    if a == 0 then b else
    JumpDown(a, b, q);
    SquareRoot(a, q * a - b, q)
  }

  /** The descent from any solution ends, on a + b, at a square root of the quotient. */
  function SquareRoot(a: int, b: int, q: int): (r: int)
    requires Solution(a, b, q)
    ensures r >= 0 && r * r == q
    decreases a + b, 1
  {
    if q < 0 then NegativeQuotientFails(a, b, q); 0
    else if q == 0 then 0
    else if q == 1 then 1
    else if q == 2 then TwoFails(a, b); 0
    else if a == b then EqualFails(a, q); 0
    else if a < b then SquareRootOrdered(a, b, q)
    else assert b * b + a * a == (b * a + 1) * q; SquareRootOrdered(b, a, q)
  }

  ghost predicate Quotient(q: int) { exists a, b :: Solution(a, b, q) }

  ghost predicate PerfectSquare(q: int) { exists r: nat :: Square(r) == q }

  function Square(r: int): int { r * r }

  /** And every perfect square is such a quotient: of k and k cubed. */
  lemma SquareIsAttained(k: nat)
    ensures Solution(k, k * k * k, k * k)
  {
  }

  lemma QuotientIffPerfectSquare(q: int)
    ensures Quotient(q) <==> PerfectSquare(q)
  {
    if Quotient(q) {
      var a, b :| Solution(a, b, q);
      assert Square(SquareRoot(a, b, q)) == q;
    }
    if PerfectSquare(q) {
      var r: nat :| Square(r) == q;
      SquareIsAttained(r);
    }
  }
}
