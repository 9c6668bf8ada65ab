/** Monotonicity of multiplication, from which index bounds follow by linear reasoning. */
module Arith {

  lemma {:induction false} MulMonotone(x: nat, y: nat, s: nat)
    requires x <= y
    ensures 0 <= x * s <= y * s
    decreases y
  {
    if x < y {
      MulMonotone(x, y - 1, s);
    } else {
      MulNonnegative(x, s);
    }
  }

  lemma {:induction false} MulNonnegative(x: nat, s: nat)
    ensures 0 <= x * s
  {
    if x == 0 {
    } else {
      MulNonnegative(x - 1, s);
    }
  }

  /** A quotient with its remainder in range is the only one. */
  lemma DivisionUnique(n: nat, s: nat, x: nat, y: nat)
    requires n == x * s + y && y < s
    ensures n / s == x && n % s == y
  {
    var q, r := n / s, n % s;
    assert q * s + r == n;
    if q < x {
      MulMonotone(q + 1, x, s);
    } else if x < q {
      MulMonotone(x + 1, q, s);
    }
  }
}
