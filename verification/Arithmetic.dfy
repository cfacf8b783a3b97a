/** Facts about products, quotients and remainders of integers, and sizes of sets. */
module Arithmetic {
  /** A floor quotient is the only one whose remainder is in range. */
  lemma {:induction false} FloorQuotient(x: int, y: int, q: int)
    requires y > 0 && q * y <= x < (q + 1) * y
    ensures x / y == q
  {
    var p := x / y;
    assert p * y <= x < (p + 1) * y;
    if p < q {
      Scale(p + 1, q, y);
    } else if q < p {
      Scale(q + 1, p, y);
    }
  }

  lemma {:induction false} Scale(a: int, b: int, y: int)
    requires a <= b && y >= 0
    ensures a * y <= b * y
  {
  }

  lemma {:induction false} Cancel(a: int, b: int, y: int)
    requires y > 0 && a * y < b * y
    ensures a < b
  {
    if b <= a {
      Scale(b, a, y);
    }
  }

  /** A number is one quotient and one remainder. */
  lemma {:induction false} Decompose(x: int, q: int, y: int, r: int)
    requires 0 <= r < y && x == q * y + r
    ensures x / y == q && x % y == r
  {
    assert (q + 1) * y == q * y + y;
    FloorQuotient(x, y, q);
  }

  lemma {:induction false} QuotientNatural(n: int, d: int)
    requires n >= 0 && d > 0
    ensures n / d >= 0
  {
    FloorOf(n, d);
    if n / d < 0 {
      Scale(n / d + 1, 0, d);
    }
  }

  lemma {:induction false} FloorOf(n: int, d: int)
    requires d > 0
    ensures n / d * d <= n < (n / d + 1) * d
  {
    assert (n / d + 1) * d == n / d * d + d;
  }

  lemma {:induction false} SameRemainder(n: int, d: int)
    requires d > 0
    ensures (n + d) % d == n % d
  {
    assert (n / d + 1) * d == n / d * d + d;
    Decompose(n + d, n / d + 1, d, n % d);
  }

  lemma {:induction false} OtherRemainder(a: int, b: int, d: int)
    requires d > 0 && a < b < a + d
    ensures a % d != b % d
  {
    var q, r := a / d, a % d;
    assert (q + 1) * d == q * d + d;
    if r + (b - a) < d {
      Decompose(b, q, d, r + (b - a));
    } else {
      Decompose(b, q + 1, d, r + (b - a) - d);
    }
  }

  lemma {:induction false} SubsetSize<T>(a: set<T>, b: set<T>)
    requires a <= b
    ensures |a| <= |b|
    decreases |a|
  {
    if a != {} {
      var x :| x in a;
      SubsetSize(a - {x}, b - {x});
    }
  }
}
