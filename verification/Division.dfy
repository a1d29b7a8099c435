/**
 Integer division with a positive divisor: uniqueness of quotient and remainder, and remainders of shifted numbers.
 */
module Division {

  lemma Distribute(b: int, x: int, y: int)
    ensures b * (x - y) == b * x - b * y
    ensures b * (x + y) == b * x + b * y
  {
  }

  lemma Multiples(b: int, d: int)
    requires b > 0
    ensures d >= 1 ==> b * d >= b
    ensures d <= -1 ==> b * d <= -b
  {
  }

  lemma Unique(b: int, q: int, r: int, p: int, s: int)
    requires 0 <= r < b && 0 <= s < b && b * q + r == b * p + s
    ensures q == p && r == s
  {
    Distribute(b, q, p);
    Multiples(b, q - p);
  }

  lemma Parts(a: int, b: int)
    requires b > 0
    ensures a == b * (a / b) + a % b && 0 <= a % b < b
  {
  }

  /** Quotient and remainder are what they are found to be. */
  lemma Divided(a: int, b: int, q: int, r: int)
    requires 0 <= r < b && a == b * q + r
    ensures a / b == q && a % b == r
  {
    Parts(a, b);
    Unique(b, q, r, a / b, a % b);
  }

  lemma SmallRemainder(a: int, b: int)
    requires 0 <= a < b
    ensures a / b == 0 && a % b == a
  {
    Divided(a, b, 0, a);
  }

  lemma WrappedRemainder(a: int, b: int)
    requires 0 < b <= a < 2 * b
    ensures a / b == 1 && a % b == a - b
  {
    Divided(a, b, 1, a - b);
  }

  lemma SameRemainder(t: int, m: int, k: int)
    requires m > 0
    ensures (t + m * k) % m == t % m
  {
    Parts(t, m);
    Distribute(m, t / m, -k);
    Divided(t + m * k, m, t / m + k, t % m);
  }

  /** Numbers with the same remainder are a multiple apart. */
  lemma Apart(a: int, b: int, m: int) returns (k: int)
    requires m > 0 && a % m == b % m
    ensures a == b + m * k
  {
    Parts(a, m);
    Parts(b, m);
    k := a / m - b / m;
    Distribute(m, a / m, b / m);
  }

  /** Remainders of neighbouring numbers. */
  lemma NextRemainder(n: int, m: int)
    requires m > 0
    ensures (n + 1) % m == if n % m + 1 == m then 0 else n % m + 1
    ensures (n + 1) / m == if n % m + 1 == m then n / m + 1 else n / m
  {
    Parts(n, m);
    if n % m + 1 == m {
      Distribute(m, n / m, -1);
      Divided(n + 1, m, n / m + 1, 0);
    } else {
      Divided(n + 1, m, n / m, n % m + 1);
    }
  }
}
