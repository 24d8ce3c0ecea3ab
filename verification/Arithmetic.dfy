/** Powers of two and the little modular arithmetic that address slicing needs. */
module Arithmetic {

  function Pow2(k: nat): (p: nat)
    ensures p >= 1
  {
    if k == 0 then 1 else 2 * Pow2(k - 1)
  }

  ghost predicate IsPow2(n: nat) {
    exists k: nat :: n == Pow2(k)
  }

  /** The powers of two by computation: halving an even one leads to one. */
  predicate PowerOfTwo(n: nat): (r: bool)
    ensures r <==> IsPow2(n)
  {
    OddPow2(n);
    if n % 2 == 1 then n == 1
    else if n == 0 then false
    else
      HalvedPow2(n);
      PowerOfTwo(n / 2)
  }

  lemma OddPow2(n: nat)
    ensures n % 2 == 1 || n == 0 ==> (IsPow2(n) <==> n == 1)
  {
    assert n == 1 ==> n == Pow2(0);
    if IsPow2(n) {
      var k :| n == Pow2(k);
    }
  }

  lemma HalvedPow2(n: nat)
    requires n > 0 && n % 2 == 0
    ensures IsPow2(n) <==> IsPow2(n / 2)
  {
    if IsPow2(n) {
      var k: nat :| n == Pow2(k);
      assert k > 0 && n / 2 == Pow2(k - 1);
    }
    if IsPow2(n / 2) {
      var k: nat :| n / 2 == Pow2(k);
      assert n == Pow2(k + 1);
    }
  }

  lemma {:induction false} Pow2Add(j: nat, k: nat)
    ensures Pow2(j + k) == Pow2(j) * Pow2(k)
  {
    if j == 0 {
    } else {
      Pow2Add(j - 1, k);
      assert 2 * (Pow2(j - 1) * Pow2(k)) == (2 * Pow2(j - 1)) * Pow2(k);
    }
  }

  lemma {:induction false} Pow2Monotone(j: nat, k: nat)
    requires j <= k
    ensures Pow2(j) <= Pow2(k)
    decreases k
  {
    if j < k {
      Pow2Monotone(j, k - 1);
    }
  }

  /** A smaller power of two divides a larger one. */
  lemma Pow2Divides(j: nat, k: nat)
    requires Pow2(j) <= Pow2(k)
    ensures Pow2(k) % Pow2(j) == 0
  {
    if j > k {
      Pow2Monotone(k + 1, j);
      assert false;
    }
    Pow2Add(k - j, j);
    MultipleMod(Pow2(k - j), Pow2(j));
  }

  lemma MultipleMod(q: int, d: nat)
    requires d > 0
    ensures (q * d) % d == 0 && (q * d) / d == q
  {
    DivModUnique(q * d, d, q, 0);
  }

  lemma DivModUnique(a: int, d: nat, q: int, r: int)
    requires d > 0 && 0 <= r < d
    requires a == q * d + r
    ensures a / d == q && a % d == r
  {
    var e := a / d - q;
    EuclideanSplit(a, d);
    assert e * d == r - a % d by {
      assert e * d == (a / d) * d - q * d;
    }
    MultipleBounds(e, d);
  }

  lemma EuclideanSplit(a: int, d: nat)
    requires d > 0
    ensures a == (a / d) * d + a % d && 0 <= a % d < d
  {
  }

  /** A non-zero multiple of d is at least d away from zero. */
  lemma MultipleBounds(e: int, d: nat)
    ensures e >= 1 ==> e * d >= d
    ensures e <= -1 ==> e * d <= -1 * d
  {
    if e >= 1 {
      assert (e - 1) * d >= 0;
    } else if e <= -1 {
      assert (-e - 1) * d >= 0;
    }
  }

  /** Two multiples of d less than d apart are equal. */
  lemma MultiplesApart(a: int, b: int, d: nat)
    requires d > 0 && a % d == 0 && b % d == 0
    ensures a == b || a + d <= b || b + d <= a
  {
    var e := a / d - b / d;
    EuclideanSplit(a, d);
    EuclideanSplit(b, d);
    assert e * d == a - b by {
      assert e * d == (a / d) * d - (b / d) * d;
    }
    MultipleBounds(e, d);
  }

  lemma DividesTransitive(a: nat, m: nat, d: nat)
    requires m > 0 && d > 0 && a % m == 0 && m % d == 0
    ensures a % d == 0
  {
    var p, q := a / m, m / d;
    assert a == m * p && m == d * q;
    assert a == (q * p) * d by {
      assert (d * q) * p == (q * p) * d;
    }
    MultipleMod(q * p, d);
  }

  /** a % d == 0 and b % d == 0 give (a + b) % d == 0. */
  lemma SumMod(a: int, b: int, d: nat)
    requires d > 0 && a % d == 0 && b % d == 0
    ensures (a + b) % d == 0
  {
    var p, q := a / d, b / d;
    assert a == p * d && b == q * d;
    assert a + b == (p + q) * d;
    MultipleMod(p + q, d);
  }

  lemma WrapOnce(n: nat, m: nat)
    requires 0 < m && n <= m
    ensures n % m == if n == m then 0 else n
  {
    if n == m {
      DivModUnique(n, m, 1, 0);
    } else {
      DivModUnique(n, m, 0, n);
    }
  }

  /** Counting modulo m goes up by one and wraps. */
  lemma NextModulo(n: nat, m: nat)
    requires 0 < m
    ensures (n + 1) % m == if n % m == m - 1 then 0 else n % m + 1
  {
    EuclideanSplit(n, m);
    if n % m == m - 1 {
      assert (n / m + 1) * m == (n / m) * m + m;
      DivModUnique(n + 1, m, n / m + 1, 0);
    } else {
      DivModUnique(n + 1, m, n / m, n % m + 1);
    }
  }
}
