/**
 Division with remainder for naturals, by repeated subtraction.  It is `%` (`RemIsMod`), in a form
 that keeps large protocols over wrapping counters linear for the solver.
 */
module Arith {
  function Rem(x: nat, m: nat): (t: nat)
    requires m > 0
    ensures t < m && t <= x
    decreases x
  {
    if x < m then x else Rem(x - m, m)
  }

  lemma {:induction false} RemIsMod(x: nat, m: nat)
    requires m > 0
    ensures Rem(x, m) == x % m
    decreases x
  {
    if x >= m {
      RemIsMod(x - m, m);
      ModStep(x - m, m);
    }
  }

  lemma {:induction false} RemQuotient(x: nat, m: nat) returns (q: nat)
    requires m > 0
    ensures x == q * m + Rem(x, m)
    decreases x
  {
    if x < m {
      q := 0;
    } else {
      q := RemQuotient(x - m, m);
      q := q + 1;
      MulSub(q, 1, m);
    }
  }

  lemma MulAtLeast(a: int, m: nat)
    requires a >= 1
    ensures a * m >= m
  {
    if a > 1 {
      MulAtLeast(a - 1, m);
      assert a * m == (a - 1) * m + m;
    }
  }

  lemma MulSub(a: int, b: int, m: int)
    ensures (a - b) * m == a * m - b * m
  {
  }

  /** Quotient and remainder are unique. */
  lemma DivUnique(q: int, t: int, q': int, t': int, m: nat)
    requires 0 <= t < m && 0 <= t' < m
    requires q * m + t == q' * m + t'
    ensures q == q' && t == t'
  {
    MulSub(q', q, m);
    MulSub(q, q', m);
    if q < q' {
      MulAtLeast(q' - q, m);
    } else if q' < q {
      MulAtLeast(q - q', m);
    }
  }

  lemma ModStep(x: int, m: nat)
    requires m > 0
    ensures (x + m) % m == x % m
  {
    var y := x + m;
    assert (1 + x / m) * m == m + (x / m) * m;
    assert y == (y / m) * m + y % m;
    assert x == (x / m) * m + x % m;
    DivUnique(y / m, y % m, 1 + x / m, x % m, m);
  }

  /** Adding a multiple of the divisor does not change the remainder. */
  lemma {:induction false} RemShift(x: nat, q: nat, m: nat)
    requires m > 0
    ensures Rem(x + q * m, m) == Rem(x, m)
    decreases q
  {
    if q > 0 {
      assert x + q * m == x + (q - 1) * m + m;
      RemShift(x, q - 1, m);
    }
  }

  /** The remainder may be taken before or after an addition. */
  lemma {:induction false} RemAdd(x: nat, k: nat, m: nat)
    requires m > 0
    ensures Rem(Rem(x, m) + k, m) == Rem(x + k, m)
    decreases x
  {
    if x >= m { RemAdd(x - m, k, m); }
  }

  /** Numbers less than `m` apart have different remainders. */
  lemma {:induction false} RemDiffer(p: nat, q: nat, m: nat)
    requires p < q < p + m
    ensures Rem(p, m) != Rem(q, m)
    decreases p
  {
    if p >= m { RemDiffer(p - m, q - m, m); }
  }

  /** A remainder by a multiple of `m` keeps the remainder by `m`. */
  lemma {:induction false} RemOfMultiple(x: nat, k: nat, c: nat, m: nat, big: nat)
    requires m > 0 && big > 0 && big == c * m
    ensures Rem(Rem(x, big) + k, m) == Rem(x + k, m)
    decreases x
  {
    if x >= big {
      RemOfMultiple(x - big, k, c, m, big);
      RemShift(x - big + k, c, m);
    }
  }
}
