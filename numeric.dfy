/** Integer and real arithmetic as Python performs it. */
module Numeric {

  function Abs(x: int): nat { if x < 0 then -x else x }

  /** int(a / b) on integers: the exact quotient truncated toward zero. */
  function TruncDiv(a: int, b: int): (q: int)
    requires b != 0
    ensures Abs(q) * Abs(b) <= Abs(a) < (Abs(q) + 1) * Abs(b)
    ensures q == 0 || ((q > 0) <==> ((a > 0) == (b > 0)))
  {
    var n := Abs(a) / Abs(b);
    EuclidNat(Abs(a), Abs(b));
    SignOfQuotient(a, b, n);
    if (a < 0) == (b < 0) then n else -n
  }

  lemma EuclidNat(a: nat, b: nat)
    requires b > 0
    ensures (a / b) * b <= a < (a / b + 1) * b
  {
    assert a == (a / b) * b + a % b;
  }

  lemma SignOfQuotient(a: int, b: int, n: nat)
    requires b != 0
    requires a == 0 ==> n == 0
    ensures var q: int := if (a < 0) == (b < 0) then n else 0 - n;
            q == 0 || ((q > 0) <==> ((a > 0) == (b > 0)))
  {
  }

  lemma MulSucc(n: int, x: int)
    ensures (n + 1) * x == n * x + x
  {
  }

  lemma MulMonotone(a: int, b: int, n: nat)
    requires a <= b
    ensures a * n <= b * n
  {
  }

  /** Dividing both sides of a strict inequality by the same positive factor. */
  lemma LtFromMul(a: int, b: int, n: int)
    requires n > 0 && a * n < b * n
    ensures a < b
  {
    if a >= b {
      MulMonotone(b, a, n);
    }
  }

  /** Dividing both sides of an inequality by the same positive factor. */
  lemma LeFromMul(a: int, b: int, n: int)
    requires n > 0 && a * n <= b * n
    ensures a <= b
  {
    if a > b {
      MulMonotone(b + 1, a, n);
      MulSucc(b, n);
    }
  }

  lemma TruncDivOfNat(a: nat, b: int)
    requires b > 0
    ensures 0 <= TruncDiv(a, b) && TruncDiv(a, b) * b <= a < (TruncDiv(a, b) + 1) * b
  {
  }

  lemma QuotientTimes(x: real, y: real)
    requires y != 0.0
    ensures (x / y) * y == x
  {
  }

  /** a // b: the quotient rounded toward negative infinity. */
  function FloorDiv(a: int, b: int): (q: int)
    requires b != 0
    ensures b > 0 ==> q * b <= a < q * b + b
    ensures b < 0 ==> q * b + b < a <= q * b
  {
    assert a == b * (a / b) + a % b;
    if b > 0 || a % b == 0 then a / b else a / b - 1
  }

  /** The rounding division with which a duration is divided by an integer:
      the nearest integer to a / b, ties going to the even neighbour. */
  function DivideAndRound(a: int, b: int): (q: int)
    requires b != 0
    ensures Abs(2 * (a - q * b)) <= Abs(b)
    ensures Abs(2 * (a - q * b)) == Abs(b) ==> q % 2 == 0
  {
    var q0 := FloorDiv(a, b);
    var r := 2 * (a - q0 * b);
    var greaterThanHalf := if b > 0 then r > b else r < b;
    assert (q0 + 1) * b == q0 * b + b;
    if greaterThanHalf || (r == b && q0 % 2 == 1) then q0 + 1 else q0
  }

  /** int(x) for a real x: truncation toward zero. */
  function Trunc(x: real): (n: int)
    ensures Abs(n) as real <= (if x < 0.0 then -x else x) < Abs(n) as real + 1.0
    ensures n == 0 || ((n > 0) <==> (x > 0.0))
  {
    if x >= 0.0 then x.Floor else -((-x).Floor)
  }
}
