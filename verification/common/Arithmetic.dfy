/** Division with remainder and rounding up. */
module Arithmetic {

  lemma Monotone(a: int, b: int, c: nat)
    requires a <= b
    ensures a * c <= b * c && c * a <= c * b
  {
  }

  /** A product, one addend at a time; unlike the operator it leaves nothing to nonlinear arithmetic. */
  function Times(a: nat, b: nat): nat
    decreases a
  {
    if a == 0 then 0 else Times(a - 1, b) + b
  }

  lemma NoTimes(a: nat, b: nat)
    requires a == 0
    ensures Times(a, b) == 0
  {
  }

  lemma {:induction false} TimesIs(a: nat, b: nat)
    ensures Times(a, b) == a * b
    decreases a
  {
    if a > 0 {
      TimesIs(a - 1, b);
      assert a * b == (a - 1) * b + b;
    }
  }

  lemma {:induction false} TimesPlus(a: nat, b: nat, c: nat)
    ensures Times(a, b + c) == Times(a, b) + Times(a, c)
    decreases a
  {
    if a > 0 { TimesPlus(a - 1, b, c); }
  }

  lemma {:induction false} TimesSplit(a: nat, b: nat, c: nat)
    ensures Times(a + b, c) == Times(a, c) + Times(b, c)
    decreases b
  {
    if b > 0 { TimesSplit(a, b - 1, c); }
  }

  lemma {:induction false} TimesMonotone(a: nat, b: nat, c: nat)
    requires b <= c
    ensures Times(a, b) <= Times(a, c)
    decreases a
  {
    if a > 0 { TimesMonotone(a - 1, b, c); }
  }

  lemma DivisionUnique(x: nat, d: nat, q: nat, r: nat)
    requires d > 0 && x == q * d + r && r < d
    ensures x / d == q && x % d == r
  {
    assert x == x / d * d + x % d;
    if x / d > q {
      Monotone(q + 1, x / d, d);
    } else if x / d < q {
      Monotone(x / d + 1, q, d);
    }
  }

  /** The quotient rounded up. */
  function CeilDiv(n: nat, d: nat): nat
    requires d > 0
  {
    n / d + if n % d != 0 then 1 else 0
  }

  lemma CeilStep(n: nat, d: nat)
    requires d > 0 && n >= d
    ensures CeilDiv(n, d) == 1 + CeilDiv(n - d, d)
    ensures n / d == 1 + (n - d) / d && n % d == (n - d) % d
  {
    var m := n - d;
    assert n == (m / d + 1) * d + m % d;
    DivisionUnique(n, d, m / d + 1, m % d);
  }

  /** It is the least number of parts of size d that hold n. */
  lemma CeilBounds(n: nat, d: nat)
    requires d > 0
    ensures n <= CeilDiv(n, d) * d < n + d
  {
    var q := n / d;
    assert n == q * d + n % d;
    assert (q + 1) * d == q * d + d;
  }

  lemma CeilLeast(n: nat, d: nat, k: nat)
    requires d > 0 && n <= k * d
    ensures CeilDiv(n, d) <= k
  {
    CeilBounds(n, d);
    if CeilDiv(n, d) >= k + 1 {
      Monotone(k + 1, CeilDiv(n, d), d);
    }
  }

  /** ... and the only one that is neither too small nor one too many. */
  lemma CeilExact(n: nat, d: nat, k: nat)
    requires d > 0 && (k - 1) * d < n <= k * d
    ensures CeilDiv(n, d) == k
  {
    CeilLeast(n, d, k);
    CeilBounds(n, d);
    if CeilDiv(n, d) < k { Monotone(CeilDiv(n, d), k - 1, d); }
  }

  /** The same quotient, one part after another; unlike division it leaves nothing to nonlinear arithmetic. */
  function Parts(n: nat, d: nat): nat
    requires d > 0
    decreases n
  {
    if n == 0 then 0 else if n <= d then 1 else 1 + Parts(n - d, d)
  }

  lemma {:induction false} PartsIs(n: nat, d: nat)
    requires d > 0
    ensures Parts(n, d) == CeilDiv(n, d)
    decreases n
  {
    if n < d {
      DivisionUnique(n, d, 0, n);
    } else {
      PartsIs(n - d, d);
      CeilStep(n, d);
    }
  }
}
