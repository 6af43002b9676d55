/** Powers and modular arithmetic used by the random stream and by bucket shifts. */
module Powers {

  function Pow(b: nat, n: nat): (r: nat)
    ensures b > 0 ==> r > 0
  {
    if n == 0 then 1 else b * Pow(b, n - 1)
  }

  lemma {:induction false} PowAdd(b: nat, m: nat, n: nat)
    ensures Pow(b, m + n) == Pow(b, m) * Pow(b, n)
  {
    if m == 0 {
    } else {
      PowAdd(b, m - 1, n);
      assert b * (Pow(b, m - 1) * Pow(b, n)) == (b * Pow(b, m - 1)) * Pow(b, n);
    }
  }

  lemma {:induction false} PowMul(b: nat, m: nat, n: nat)
    ensures Pow(Pow(b, m), n) == Pow(b, m * n)
  {
    if n == 0 {
    } else {
      PowMul(b, m, n - 1);
      PowAdd(b, m, m * (n - 1));
      assert m + m * (n - 1) == m * n;
    }
  }

  lemma {:induction false} PowMonotone(b: nat, m: nat, n: nat)
    requires b > 0 && m <= n
    ensures Pow(b, m) <= Pow(b, n)
  {
    PowAdd(b, m, n - m);
    assert Pow(b, m) * Pow(b, n - m) >= Pow(b, m) * 1;
  }

  lemma MultipleBounds(d: int, m: int)
    requires m > 0
    ensures d >= 1 ==> d * m >= m
    ensures d <= -1 ==> d * m <= -m
  {
    assert d * m == (d - 1) * m + m && d * m == (d + 1) * m - m;
  }

  /** Division with remainder has one answer. */
  lemma ModUnique(a: int, q: int, r: int, m: int)
    requires m > 0 && a == q * m + r && 0 <= r < m
    ensures a % m == r && a / m == q
  {
    var d := a / m - q;
    assert d * m == (a / m) * m - q * m;
    MultipleBounds(d, m);
  }

  lemma ModShift(a: int, k: int, m: int)
    requires m > 0
    ensures (a + k * m) % m == a % m
  {
    assert a + k * m == (a / m + k) * m + a % m;
    ModUnique(a + k * m, a / m + k, a % m, m);
  }

  lemma MulModLeft(a: int, b: int, m: int)
    requires m > 0
    ensures ((a % m) * b) % m == (a * b) % m
  {
    var q := a / m;
    assert a * b == (a % m) * b + (q * b) * m by {
      assert a == a % m + q * m;
      assert (a % m + q * m) * b == (a % m) * b + (q * m) * b;
      assert (q * m) * b == (q * b) * m;
    }
    ModShift((a % m) * b, q * b, m);
  }

  lemma MulModBoth(a: int, b: int, m: int)
    requires m > 0
    ensures ((a % m) * (b % m)) % m == (a * b) % m
  {
    MulModLeft(a, b % m, m);
    MulModLeft(b, a, m);
    assert (b % m) * a == a * (b % m) && b * a == a * b;
  }

  lemma {:induction false} PowMod(b: nat, n: nat, m: nat)
    requires m > 0
    ensures Pow(b % m, n) % m == Pow(b, n) % m
  {
    if n > 0 {
      PowMod(b, n - 1, m);
      MulModLeft(b, Pow(b % m, n - 1), m);
      MulModLeft(Pow(b % m, n - 1), b, m);
      MulModLeft(Pow(b, n - 1), b, m);
      assert b * Pow(b % m, n - 1) == Pow(b % m, n - 1) * b;
      assert b * Pow(b, n - 1) == Pow(b, n - 1) * b;
    }
  }

  /** The position of the leading bit: the number of halvings that bring n down to at most one. */
  function Log2Floor(n: nat): (k: nat)
    ensures n >= 1 ==> Pow(2, k) <= n < 2 * Pow(2, k)
  {
    if n <= 1 then 0 else 1 + Log2Floor(n / 2)
  }

  lemma {:induction false} Log2Between(n: nat, k: nat)
    requires Pow(2, k) <= n < 2 * Pow(2, k)
    ensures Log2Floor(n) == k
  {
    if k > 0 {
      Log2Between(n / 2, k - 1);
    }
  }
}
