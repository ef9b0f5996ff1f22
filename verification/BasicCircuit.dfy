/** The integer helpers of `cacti/basic_circuit.cc` and what they compute. */
module BasicCircuit {

  function Pow2(k: nat): (p: nat)
    ensures p >= 1 && p > k
  {
    if k == 0 then 1 else 2 * Pow2(k - 1)
  }

  lemma {:induction false} Pow2Monotone(j: nat, k: nat)
    requires j < k
    ensures 2 * Pow2(j) <= Pow2(k)
    decreases k
  {
    if j < k - 1 {
      Pow2Monotone(j, k - 1);
    }
  }

  lemma {:induction false} Pow2Add(j: nat, k: nat)
    ensures Pow2(j + k) == Pow2(j) * Pow2(k)
  {
    if j > 0 {
      Pow2Add(j - 1, k);
      MulAssociates(2, Pow2(j - 1), Pow2(k));
    }
  }

  lemma Pow2Injective(j: nat, k: nat)
    requires Pow2(j) == Pow2(k)
    ensures j == k
  {
    if j < k {
      Pow2Monotone(j, k);
    } else if k < j {
      Pow2Monotone(k, j);
    }
  }

  lemma MulAssociates(x: int, y: int, z: int)
    ensures x * y * z == x * (y * z)
  {
  }

  // ---------- _log2 and is_pow2 ----------

  /** The exponent that `_log2` counts: the number of halvings that lead to 1. */
  function Log2(num: nat): nat
    requires num > 0
  {
    if num == 1 then 0 else 1 + Log2(num / 2)
  }

  /** The loop of `_log2`; its `exit(1)` on zero is the precondition. */
  method ComputeLog2(num: nat) returns (log2: nat)
    requires num > 0
    ensures Pow2(log2) <= num < 2 * Pow2(log2)
    ensures log2 == Log2(num)
  {
    var n := num;
    log2 := 0;
    while n > 1
      invariant n >= 1
      invariant Log2(num) == log2 + Log2(n)
    {
      n := n / 2;
      log2 := log2 + 1;
    }
    Log2IsFloor(num, log2);
  }

  lemma {:induction false} Log2Bounds(num: nat)
    requires num > 0
    ensures Pow2(Log2(num)) <= num < 2 * Pow2(Log2(num))
  {
    if num > 1 {
      Log2Bounds(num / 2);
    }
  }

  /** `_log2` is the floor of the binary logarithm, and that exponent is unique. */
  lemma {:induction false} Log2IsFloor(num: nat, k: nat)
    requires num > 0
    ensures Pow2(k) <= num < 2 * Pow2(k) <==> k == Log2(num)
  {
    Log2Bounds(num);
    if k < Log2(num) {
      Pow2Monotone(k, Log2(num));
    } else if Log2(num) < k {
      Pow2Monotone(Log2(num), k);
    }
  }

  predicate IsPow2(val: int) {
    if val <= 0 then false
    else if val == 1 then true
    else Log2(val) != Log2(val - 1)
  }

  /** `is_pow2` accepts exactly the powers of two. */
  lemma IsPow2Correct(val: int)
    ensures IsPow2(val) <==> exists k: nat :: val == Pow2(k)
  {
    if val == 1 {
      assert val == Pow2(0);
    } else if val > 1 {
      Log2Bounds(val);
      Log2IsFloor(val - 1, Log2(val));
      if IsPow2(val) {
        assert val == Pow2(Log2(val));
      }
      forall k: nat | val == Pow2(k)
        ensures IsPow2(val)
      {
        Log2IsFloor(val, k);
      }
    }
  }

  // ---------- factorial and combination ----------

  /** lo * (lo + 1) * ... * hi, and 1 when the range is empty. */
  function Product(lo: nat, hi: nat): nat {
    if hi < lo then 1
    else if hi == 0 then 0
    else Product(lo, hi - 1) * hi
  }

  /** The loop of `factorial(n, m)`: the product m * ... * n, but `m` itself when n < m. */
  method Factorial(n: int, m: nat) returns (fa: nat)
    ensures fa == if n < m then m else Product(m, n)
  {
    fa := m;
    if m <= n {
      ProductUnit(m);
    }
    var i := m + 1;
    while i <= n
      invariant i <= n + 1 || i == m + 1
      invariant fa == if n < m then m else Product(m, i - 1)
    {
      fa := fa * i;
      i := i + 1;
    }
  }

  lemma ProductUnit(m: nat)
    ensures Product(m, m) == m
  {
    if m > 0 {
      assert Product(m, m - 1) == 1;
    }
  }

  /** Binomial coefficients by Pascal's rule. */
  function Choose(n: nat, k: nat): nat {
    if k == 0 then 1
    else if n == 0 then 0
    else Choose(n - 1, k - 1) + Choose(n - 1, k)
  }

  lemma {:induction false} ChooseEdge(n: nat, k: nat)
    ensures k > n ==> Choose(n, k) == 0
    ensures k == n ==> Choose(n, k) == 1
  {
    if k > 0 && n > 0 && k >= n {
      ChooseEdge(n - 1, k - 1);
      ChooseEdge(n - 1, k);
    }
  }

  lemma {:induction false} ProductSplitFirst(lo: nat, hi: nat)
    requires 1 <= lo <= hi
    ensures Product(lo, hi) == lo * Product(lo + 1, hi)
  {
    if lo < hi {
      ProductSplitFirst(lo, hi - 1);
      MulAssociates(lo, Product(lo + 1, hi - 1), hi);
    } else {
      ProductUnit(lo);
    }
  }

  /** The division in `combination` is exact: (m + 1) * ... * n is C(n, m) times (n - m)!. */
  lemma {:induction false} ProductIsChooseTimesFactorial(n: nat, m: nat)
    requires m <= n
    ensures Product(m + 1, n) == Choose(n, m) * Product(1, n - m)
    decreases n
  {
    if m == n {
      ChooseEdge(n, n);
    } else if m > 0 {
      var a, b, f := Choose(n - 1, m - 1), Choose(n - 1, m), Product(1, n - 1 - m);
      var q := Product(m + 1, n - 1);
      ProductIsChooseTimesFactorial(n - 1, m - 1);
      ProductIsChooseTimesFactorial(n - 1, m);
      ProductSplitFirst(m, n - 1);
      assert Product(1, n - m) == f * (n - m);
      assert m * q == a * (f * (n - m));
      assert q == b * f;
      Distribute(q, m, n - m, a, b, f);
    }
  }

  lemma Distribute(q: nat, m: nat, d: nat, a: nat, b: nat, f: nat)
    requires m * q == a * (f * d) && q == b * f
    ensures q * (m + d) == (a + b) * (f * d)
  {
    assert q * d == b * (f * d);
  }

  lemma ProductPositive(lo: nat, hi: nat)
    requires lo >= 1
    ensures Product(lo, hi) >= 1
  {
  }

  /** `combination(n, m)`: the quotient of two calls of `factorial`. */
  method Combination(n: nat, m: nat) returns (ret: nat)
    ensures m < n ==> ret == Choose(n, m)
    ensures m >= n ==> ret == m + 1
    ensures ret == Choose(n, m) <==> m < n || (n == 0 && m == 0)
  {
    var top := Factorial(n, m + 1);
    var bottom := Factorial(n - m, 1);
    if m < n {
      QuotientIsChoose(n, m);
    } else {
      ChooseEdge(n, m);
    }
    ret := top / bottom;
  }

  lemma QuotientIsChoose(n: nat, m: nat)
    requires m < n
    ensures Product(1, n - m) > 0 && Product(m + 1, n) / Product(1, n - m) == Choose(n, m)
  {
    ProductPositive(1, n - m);
    ProductIsChooseTimesFactorial(n, m);
    ExactQuotient(Choose(n, m), Product(1, n - m));
  }

  lemma ExactQuotient(c: nat, d: nat)
    requires d > 0
    ensures c * d / d == c
  {
    var q := c * d / d;
    assert c * d == d * q + c * d % d;
    if q < c {
      LessTimes(q, c, d);
    } else if c < q {
      LessTimes(c, q, d);
    }
  }

  lemma LessTimes(x: int, y: int, d: nat)
    requires x < y
    ensures d * x + d <= d * y
  {
    assert d * (y - x - 1) >= 0;
    assert d * y == d * x + d + d * (y - x - 1);
  }
}
