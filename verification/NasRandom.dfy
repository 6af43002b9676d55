/**
 The NAS random stream: randlc on double values, the jump-ahead to a rank's
 first seed, and key generation.

 A double is a `real`; every operation whose result the source stores in a double
 goes through an unknown rounding function that is only known to leave a binary64
 number unchanged. All results below hold for every such rounding.
 */
module NasRandom {
  import opened Powers

  const T23: int := 0x80_0000
  const T46: int := 0x4000_0000_0000
  const T53: int := 0x20_0000_0000_0000
  const R23: real := 1.0 / 8388608.0
  const R46: real := 1.0 / 70368744177664.0

  // ---------- doubles ----------

  /** x divided by two, e times. */
  function Halved(x: real, e: nat): real
  {
    if e == 0 then x else Halved(x, e - 1) / 2.0
  }

  ghost predicate ScaledInteger(x: real, significand: int, exponent: nat)
  {
    -T53 <= significand <= T53 && exponent <= 1000 && x == Halved(significand as real, exponent)
  }

  /** x has a significand of at most 53 bits and an exponent in the normal range. */
  ghost predicate IsDouble(x: real)
  {
    exists significand, exponent :: ScaledInteger(x, significand, exponent)
  }

  type Rounding = f: real -> real | forall x :: IsDouble(x) ==> f(x) == x
    witness (x: real) => x

  /** Conversion of a nonnegative double to a 32-bit int: truncation, defined only in range. */
  function ToInt32(x: real): int
    requires 0.0 <= x && x.Floor < 0x8000_0000
  {
    x.Floor
  }

  /** The states of the generator: integers of at most 46 bits held in a double. */
  ghost predicate IsState(v: real)
  {
    0.0 <= v < T46 as real && v.Floor as real == v
  }

  lemma IntegerIsDouble(m: int)
    requires -T53 <= m <= T53
    ensures IsDouble(m as real)
  {
    assert ScaledInteger(m as real, m, 0);
  }

  lemma {:induction false} HalvedAdd(x: real, d: nat, e: nat)
    ensures Halved(x, d + e) == Halved(Halved(x, d), e)
  {
    if e > 0 {
      HalvedAdd(x, d, e - 1);
    }
  }

  lemma HalvedFive(x: real)
    ensures Halved(x, 5) == x / 32.0
  {
    assert Halved(x, 1) == Halved(x, 0) / 2.0;
    assert Halved(x, 2) == Halved(x, 1) / 2.0;
    assert Halved(x, 3) == Halved(x, 2) / 2.0;
    assert Halved(x, 4) == Halved(x, 3) / 2.0;
  }

  lemma Halved23(x: real)
    ensures Halved(x, 23) == R23 * x
  {
    HalvedFive(x);
    HalvedAdd(x, 5, 5);
    HalvedFive(Halved(x, 5));
    HalvedAdd(x, 10, 5);
    HalvedFive(Halved(x, 10));
    HalvedAdd(x, 15, 5);
    HalvedFive(Halved(x, 15));
    assert Halved(x, 21) == Halved(x, 20) / 2.0;
    assert Halved(x, 22) == Halved(x, 21) / 2.0;
  }

  lemma Halved46(x: real)
    ensures Halved(x, 46) == R46 * x
  {
    Halved23(x);
    HalvedAdd(x, 23, 23);
    Halved23(Halved(x, 23));
  }

  lemma ScaledIsDouble(m: int)
    requires -T53 <= m <= T53
    ensures IsDouble(R23 * m as real) && IsDouble(R46 * m as real)
  {
    Halved23(m as real);
    Halved46(m as real);
    assert ScaledInteger(R23 * m as real, m, 23);
    assert ScaledInteger(R46 * m as real, m, 46);
  }

  lemma {:induction false} RealProduct(a: int, b: nat)
    ensures a as real * b as real == (a * b) as real
  {
    if b > 0 {
      RealProduct(a, b - 1);
      assert a * b == a * (b - 1) + a;
    }
  }

  /** Everything randlc computes to reduce an integer n modulo 2^23 is exact. */
  lemma ExactReduction23(n: nat)
    requires n < 2 * T46
    ensures IsDouble(R23 * n as real) && (R23 * n as real).Floor == n / T23 < 0x8000_0000
    ensures IsDouble((T23 * (n / T23)) as real) && IsDouble((n % T23) as real)
  {
    ScaledIsDouble(n);
    assert R23 * n as real == (n / T23) as real + R23 * (n % T23) as real;
    IntegerIsDouble(T23 * (n / T23));
    IntegerIsDouble(n % T23);
  }

  lemma ExactReduction46(n: nat)
    requires n < 2 * T46
    ensures IsDouble(R46 * n as real) && (R46 * n as real).Floor == n / T46 < 0x8000_0000
    ensures IsDouble((T46 * (n / T46)) as real) && IsDouble((n % T46) as real)
  {
    ScaledIsDouble(n);
    assert R46 * n as real == (n / T46) as real + R46 * (n % T46) as real;
    IntegerIsDouble(T46 * (n / T46));
    IntegerIsDouble(n % T46);
  }

  // ---------- randlc ----------

  /** One step of the generator: the product modulo 2^46. */
  function Step(a: nat, x: nat): (r: nat)
    ensures r < T46
  {
    (a * x) % T46
  }

  lemma Distribute(p: int, q: int, r: int, s: int)
    ensures (p + q) * (r + s) == p * r + p * s + q * r + q * s
  {
  }

  lemma Regroup(t: int, a: int, x: int, y: int, b: int)
    ensures (t * a) * (t * x) == t * (t * (a * x))
    ensures (t * a) * y == t * (a * y)
    ensures b * (t * x) == t * (b * x)
  {
    assert (t * a) * (t * x) == t * (a * (t * x)) == t * (t * (a * x));
  }

  lemma MulMonotone(u: int, w: int, v: int)
    requires 0 <= u <= w && 0 <= v
    ensures 0 <= u * v <= w * v && u * v == v * u
  {
    assert w * v == u * v + (w - u) * v;
  }

  lemma SmallProduct(u: int, v: int)
    requires 0 <= u < T23 && 0 <= v < T23
    ensures 0 <= u * v <= (T23 - 1) * (T23 - 1) < T46
  {
    MulMonotone(u, T23 - 1, v);
    MulMonotone(v, T23 - 1, T23 - 1);
  }

  /** The two-halves product of randlc, on integers. */
  lemma HalvesProduct(a: nat, x: nat)
    requires a < T46 && x < T46
    ensures var a1, a2, x1, x2 := a / T23, a % T23, x / T23, x % T23;
            var t1 := a1 * x2 + a2 * x1;
            var t3 := T23 * (t1 % T23) + a2 * x2;
            && 0 <= a1 * x2 < T46 && 0 <= a2 * x1 < T46 && 0 <= a2 * x2 < T46
            && t3 % T46 == Step(a, x)
  {
    var a1, a2, x1, x2 := a / T23, a % T23, x / T23, x % T23;
    var t1 := a1 * x2 + a2 * x1;
    SmallProduct(a1, x2);
    SmallProduct(a2, x1);
    SmallProduct(a2, x2);
    var t3 := T23 * (t1 % T23) + a2 * x2;
    assert a * x == t3 + (a1 * x1 + t1 / T23) * T46 by {
      assert a == T23 * a1 + a2 && x == T23 * x1 + x2;
      assert a * x == T23 * (T23 * (a1 * x1)) + T23 * (a1 * x2) + T23 * (a2 * x1) + a2 * x2 by {
        Distribute(T23 * a1, a2, T23 * x1, x2);
        Regroup(T23, a1, x1, x2, a2);
      }
      assert t1 == T23 * (t1 / T23) + t1 % T23;
    }
    ModShift(t3, a1 * x1 + t1 / T23, T46);
  }

  /** The partial products of randlc as values of doubles. */
  lemma PartialProducts(a: nat, x: nat) returns (p: nat, q: nat, r: nat)
    requires a < T46 && x < T46
    ensures p < T46 && q < T46 && r < T46
    ensures (a / T23) as real * (x % T23) as real == p as real
    ensures (a % T23) as real * (x / T23) as real == q as real
    ensures (a % T23) as real * (x % T23) as real == r as real
    ensures (T23 * ((p + q) % T23) + r) % T46 == Step(a, x)
  {
    HalvesProduct(a, x);
    p, q, r := (a / T23) * (x % T23), (a % T23) * (x / T23), (a % T23) * (x % T23);
    RealProduct(a / T23, x % T23);
    RealProduct(a % T23, x / T23);
    RealProduct(a % T23, x % T23);
  }

  /** A double variable whose address is passed, as randlc's two parameters are. */
  class DoubleCell {
    var value: real

    constructor (value: real)
      ensures this.value == value
    {
      this.value := value;
    }
  }

  /** Splits a state in two halves of 23 bits. */
  method Split(fl: Rounding, v: real) returns (high: real, low: real)
    requires IsState(v)
    ensures high == (v.Floor / T23) as real && low == (v.Floor % T23) as real
  {
    ExactReduction23(v.Floor);
    assert v == v.Floor as real;
    var j := ToInt32(fl(R23 * v));
    high := j as real;
    low := fl(v - fl(T23 as real * high));
  }

  /** x - 2^23 * (int) (2^-23 * x) */
  method Reduce23(fl: Rounding, x: real, ghost n: nat) returns (r: real)
    requires x == n as real && n < 2 * T46
    ensures r == (n % T23) as real
  {
    ExactReduction23(n);
    var j := ToInt32(fl(R23 * x));
    r := fl(x - fl(T23 as real * j as real));
  }

  /** x - 2^46 * (int) (2^-46 * x) */
  method Reduce46(fl: Rounding, x: real, ghost n: nat) returns (r: real)
    requires x == n as real && n < 2 * T46
    ensures r == (n % T46) as real
  {
    ExactReduction46(n);
    var j := ToInt32(fl(R46 * x));
    r := fl(x - fl(T46 as real * j as real));
  }

  /** The state as a number between zero and one. */
  method Normalize(fl: Rounding, state: real) returns (uniform: real)
    requires IsState(state)
    ensures uniform == R46 * state && 0.0 <= uniform < 1.0
  {
    ScaledIsDouble(state.Floor);
    assert state == state.Floor as real;
    uniform := fl(R46 * state);
  }

  /** p * q + r * s on integers held in doubles, exact because nothing reaches 2^47. */
  method SumOfProducts(fl: Rounding, p: real, q: real, r: real, s: real,
                       ghost pq: nat, ghost rs: nat) returns (t: real)
    requires p * q == pq as real && r * s == rs as real
    requires pq <= T46 && rs <= T46
    ensures t == (pq + rs) as real
  {
    IntegerIsDouble(pq);
    IntegerIsDouble(rs);
    IntegerIsDouble(pq + rs);
    t := fl(fl(p * q) + fl(r * s));
  }

  /** randlc: the state moves to a * x mod 2^46, also when both cells are the same. */
  method Randlc(fl: Rounding, seed: DoubleCell, multiplier: DoubleCell) returns (uniform: real)
    requires IsState(seed.value) && IsState(multiplier.value)
    modifies seed
    ensures IsState(seed.value)
    ensures seed.value == Step(old(multiplier.value).Floor, old(seed.value).Floor) as real
    ensures uniform == R46 * seed.value && 0.0 <= uniform < 1.0
  {
    ghost var p, q, r := PartialProducts(multiplier.value.Floor, seed.value.Floor);
    var a1, a2 := Split(fl, multiplier.value);
    var x1, x2 := Split(fl, seed.value);
    var t1 := SumOfProducts(fl, a1, x2, a2, x1, p, q);
    var z := Reduce23(fl, t1, p + q);
    var t3 := SumOfProducts(fl, T23 as real, z, a2, x2, T23 * ((p + q) % T23), r);
    seed.value := Reduce46(fl, t3, T23 * ((p + q) % T23) + r);
    uniform := Normalize(fl, seed.value);
  }

  // ---------- the sequential stream and its closed form ----------

  /** The state after n sequential steps from s. */
  function Stream(a: nat, s: nat, n: nat): (r: nat)
    requires s < T46
    ensures r < T46
  {
    if n == 0 then s else Step(a, Stream(a, s, n - 1))
  }

  lemma StepOfPower(a: nat, p: nat, s: nat)
    ensures Step(a, (p * s) % T46) == ((a * p) * s) % T46
  {
    var x := p * s;
    MulModLeft(x, a, T46);
    assert a * (x % T46) == (x % T46) * a;
    assert x * a == (a * p) * s;
  }

  lemma {:induction false} StreamClosedForm(a: nat, s: nat, n: nat)
    requires s < T46
    ensures Stream(a, s, n) == (Pow(a, n) * s) % T46
  {
    if n > 0 {
      StreamClosedForm(a, s, n - 1);
      StepOfPower(a, Pow(a, n - 1), s);
    }
  }

  lemma {:induction false} StreamSplit(a: nat, s: nat, m: nat, n: nat)
    requires s < T46
    ensures Stream(a, s, m + n) == Stream(a, Stream(a, s, m), n)
  {
    if n > 0 {
      StreamSplit(a, s, m, n - 1);
    }
  }

  // ---------- find_my_seed ----------

  lemma SquarePower(a: nat, k: nat)
    ensures Step(Pow(a, k) % T46, Pow(a, k) % T46) == Pow(a, 2 * k) % T46
  {
    MulModBoth(Pow(a, k), Pow(a, k), T46);
    PowAdd(a, k, k);
  }

  /** What the second loop of find_my_seed keeps: the rest of the jump still leads to the target. */
  ghost predicate LeadsTo(base: nat, exponent: nat, x: nat, target: nat)
  {
    (Pow(base, exponent) * x) % T46 == target
  }

  /** Multiplying one factor of a power into the accumulator. */
  lemma AbsorbFactor(y: nat, x: nat, k: nat, target: nat)
    requires k > 0 && LeadsTo(y, k, x, target)
    ensures LeadsTo(y, k - 1, Step(y, x), target)
  {
    var p := Pow(y, k - 1);
    MulModLeft(y * x, p, T46);
    assert Step(y, x) * p == p * Step(y, x);
    assert (y * x) * p == (y * p) * x;
  }

  /** Squaring the base halves the exponent. */
  lemma HalveExponent(y: nat, x: nat, k: nat, target: nat)
    requires LeadsTo(y, 2 * k, x, target)
    ensures LeadsTo(Step(y, y), k, x, target)
  {
    PowMod(y * y, k, T46);
    assert Pow(y, 2) == y * y by {
      assert Pow(y, 1) == y * Pow(y, 0) == y;
    }
    PowMul(y, 2, k);
    MulModLeft(Pow(Step(y, y), k), x, T46);
    MulModLeft(Pow(y, 2 * k), x, T46);
  }

  lemma NoExponentLeft(y: nat, x: nat, target: nat)
    requires LeadsTo(y, 0, x, target) && x < T46
    ensures x == target
  {
    assert Pow(y, 0) * x == x;
  }

  /** The jump target is a position of the sequential stream. */
  lemma JumpTarget(a: nat, s: nat, rank: nat, stride: nat)
    requires s < T46
    ensures (Pow(Pow(a, stride) % T46, rank) * s) % T46 == Stream(a, s, rank * stride)
  {
    PowMod(Pow(a, stride), rank, T46);
    PowMul(a, stride, rank);
    assert stride * rank == rank * stride;
    MulModLeft(Pow(Pow(a, stride) % T46, rank), s, T46);
    MulModLeft(Pow(a, rank * stride), s, T46);
    StreamClosedForm(a, s, rank * stride);
  }

  lemma Power31()
    ensures Pow(2, 29) == 0x2000_0000 && Pow(2, 31) == 0x8000_0000
  {
    assert Pow(2, 9) == 512 && Pow(2, 10) == 1024;
    PowAdd(2, 10, 10);
    PowAdd(2, 20, 9);
    assert Pow(2, 31) == 2 * Pow(2, 30);
  }

  /** The second loop of find_my_seed: seed * an^rank by the binary digits of the rank. */
  method JumpAhead(fl: Rounding, seed: real, an: real, rank: nat) returns (first: real)
    requires rank < 0x8000_0000 && IsState(seed) && IsState(an)
    ensures first == ((Pow(an.Floor, rank) * seed.Floor) % T46) as real
  {
    ghost var target := (Pow(an.Floor, rank) * seed.Floor) % T46;
    var t1 := new DoubleCell(seed);
    var t2 := new DoubleCell(an);
    var i, kk := 1, rank;
    Power31();
    while i <= 100
      invariant 1 <= i <= 32 && 0 <= kk < Pow(2, 32 - i)
      invariant fresh(t1) && fresh(t2) && t1 != t2
      invariant IsState(t1.value) && IsState(t2.value)
      invariant LeadsTo(t2.value.Floor, kk, t1.value.Floor, target)
    {
      var ik := kk / 2;
      if 2 * ik != kk {
        AbsorbFactor(t2.value.Floor, t1.value.Floor, kk, target);
        var _ := Randlc(fl, t1, t2);
      }
      if ik == 0 {
        break;
      }
      HalveExponent(t2.value.Floor, t1.value.Floor, ik, target);
      var _ := Randlc(fl, t2, t2);
      kk, i := ik, i + 1;
    }
    NoExponentLeft(t2.value.Floor, t1.value.Floor, target);
    first := t1.value;
  }

  /** The first loop of find_my_seed: repeated squaring of the multiplier, in one cell. */
  method RaiseByPowerOfTwo(fl: Rounding, multiplier: real, mq: nat) returns (an: real)
    requires IsState(multiplier)
    ensures IsState(an) && an.Floor == Pow(multiplier.Floor, Pow(2, mq)) % T46
  {
    ghost var a := multiplier.Floor;
    var t1 := new DoubleCell(multiplier);
    assert Pow(a, 1) == a * Pow(a, 0) == a;
    for i := 1 to mq + 1
      invariant fresh(t1)
      invariant IsState(t1.value) && t1.value.Floor == Pow(a, Pow(2, i - 1)) % T46
    {
      SquarePower(a, Pow(2, i - 1));
      var _ := Randlc(fl, t1, t1);
    }
    an := t1.value;
  }

  /** find_my_seed: jumps over rank strides, where the stride is the power of two below the share. */
  method FindMySeed(fl: Rounding, rank: nat, commSize: nat, totalRandomNumbers: nat, seed: real, multiplier: real)
    returns (first: real)
    requires commSize > 0 && rank < 0x8000_0000
    requires IsState(seed) && IsState(multiplier)
    ensures first == Stream(multiplier.Floor, seed.Floor,
                            rank * Pow(2, Log2Floor(totalRandomNumbers / commSize))) as real
  {
    var nq, mq := totalRandomNumbers / commSize, 0;
    while nq > 1
      invariant nq >= 0 && mq + Log2Floor(nq) == Log2Floor(totalRandomNumbers / commSize)
    {
      mq, nq := mq + 1, nq / 2;
    }
    var an := RaiseByPowerOfTwo(fl, multiplier, mq);
    first := JumpAhead(fl, seed, an, rank);
    JumpTarget(multiplier.Floor, seed.Floor, rank, Pow(2, mq));
  }

  // ---------- generate_keys ----------

  /** The sum of the four states that make up key i of the stream that starts at s. */
  function FourStates(a: nat, s: nat, i: nat): (n: nat)
    requires s < T46
    ensures n <= 4 * (T46 - 1)
  {
    Stream(a, s, 4 * i + 1) + Stream(a, s, 4 * i + 2) + Stream(a, s, 4 * i + 3) + Stream(a, s, 4 * i + 4)
  }

  /** Key i of the stream: a quarter of the key range times the sum of four uniform numbers, truncated. */
  function KeyAt(scale: nat, a: nat, s: nat, i: nat): nat
    requires s < T46
  {
    (scale * FourStates(a, s, i)) / T46
  }

  function KeySequence(scale: nat, a: nat, s: nat, n: nat): (keys: seq<nat>)
    requires s < T46
    ensures |keys| == n
  {
    seq(n, i requires 0 <= i < n => KeyAt(scale, a, s, i))
  }

  /** Key i in plain arithmetic: the four states after 4 * i draws are powers of the multiplier times the seed. */
  lemma KeyFromPowers(scale: nat, a: nat, s: nat, i: nat)
    requires s < T46
    ensures KeyAt(scale, a, s, i)
         == (scale * ((Pow(a, 4 * i + 1) * s) % T46 + (Pow(a, 4 * i + 2) * s) % T46
                      + (Pow(a, 4 * i + 3) * s) % T46 + (Pow(a, 4 * i + 4) * s) % T46)) / T46
  {
    StreamClosedForm(a, s, 4 * i + 1);
    StreamClosedForm(a, s, 4 * i + 2);
    StreamClosedForm(a, s, 4 * i + 3);
    StreamClosedForm(a, s, 4 * i + 4);
  }

  /** A key is below four times the scale. */
  lemma KeyBelowMaximum(scale: nat, a: nat, s: nat, i: nat)
    requires s < T46 && scale > 0
    ensures KeyAt(scale, a, s, i) < 4 * scale
  {
    var n := FourStates(a, s, i);
    MulMonotone(n, 4 * (T46 - 1), scale);
    assert scale * n < (4 * scale) * T46;
    var k := KeyAt(scale, a, s, i);
    if k >= 4 * scale {
      MulMonotone(4 * scale, k, T46);
      assert false;
    }
  }

  lemma DoubleTimesHalf(p: nat, y: real)
    ensures (2 * p) as real * (y / 2.0) == p as real * y
  {
    assert (2 * p) as real == 2.0 * p as real;
  }

  lemma {:induction false} PowerCancelsHalving(x: real, q: nat, e: nat)
    requires q <= e
    ensures Pow(2, q) as real * Halved(x, e) == Halved(x, e - q)
  {
    if q > 0 {
      PowerCancelsHalving(x, q - 1, e - 1);
      DoubleTimesHalf(Pow(2, q - 1), Halved(x, e - 1));
    }
  }

  lemma ScaleHalved(q: nat, e: nat, x: real, y: real)
    requires q <= e && y == Halved(x, e)
    ensures Pow(2, q) as real * y == Halved(x, e - q)
  {
    PowerCancelsHalving(x, q, e);
  }

  lemma HalvedIsDouble(x: real, n: nat, e: nat)
    requires n <= 4 * T46 && 17 <= e <= 46 && x == Halved(n as real, e)
    ensures IsDouble(x)
  {
    assert ScaledInteger(x, n, e);
  }

  /** Scaling a uniform sum by a power of two loses nothing. */
  lemma ScaledSumIsExact(q: nat, n: nat, x: real, product: real)
    requires q <= 29 && n <= 4 * T46 && x == R46 * n as real
    requires product == Pow(2, q) as real * x
    ensures IsDouble(product)
  {
    Halved46(n as real);
    ScaleHalved(q, 46, n as real, x);
    HalvedIsDouble(product, n, 46 - q);
  }

  lemma PullOut(p: real, y: real, x: real, product: real)
    requires x == R46 * y && product == p * x
    ensures product == R46 * (p * y)
  {
  }

  lemma ScaledFloor(m: nat, product: real)
    requires product == R46 * m as real
    ensures 0.0 <= product && product.Floor == m / T46
  {
    assert product == (m / T46) as real + R46 * (m % T46) as real;
  }

  /** Truncating the scaled sum is an integer division. */
  lemma ScaledSumFloor(scale: nat, n: nat, x: real, product: real)
    requires x == R46 * n as real && product == scale as real * x
    ensures 0.0 <= product && product.Floor == (scale * n) / T46
  {
    PullOut(scale as real, n as real, x, product);
    RealProduct(scale, n);
    ScaledFloor(scale * n, product);
  }

  method AddUniform(fl: Rounding, x: real, u: real, ghost n: nat, ghost m: nat) returns (sum: real)
    requires x == R46 * n as real && u == R46 * m as real && n + m <= 4 * T46
    ensures sum == R46 * (n + m) as real
  {
    ScaledIsDouble(n + m);
    sum := fl(x + u);
  }

  lemma ScaledKeyFits(q: nat, n: nat)
    requires q <= 29 && n <= 4 * (T46 - 1)
    ensures (Pow(2, q) * n) / T46 < 0x8000_0000
  {
    PowMonotone(2, q, 29);
    Power31();
    MulMonotone(Pow(2, q), 0x2000_0000, n);
  }

  /** static_cast<KeyValue>(key_scale * x): in range of a 32-bit int. */
  method ScaleKey(fl: Rounding, scale: nat, ghost q: nat, x: real, ghost n: nat) returns (key: nat)
    requires q <= 29 && scale == Pow(2, q)
    requires n <= 4 * (T46 - 1) && x == R46 * n as real
    ensures key == (scale * n) / T46
  {
    var product := scale as real * x;
    ScaledSumIsExact(q, n, x, product);
    ScaledSumFloor(scale, n, x, product);
    ScaledKeyFits(q, n);
    key := ToInt32(fl(product));
  }

  /** One iteration of generate_keys. */
  method NextKey(fl: Rounding, seed: DoubleCell, multiplier: DoubleCell, scale: nat, ghost q: nat,
                 ghost s: nat, ghost i: nat) returns (key: nat)
    requires seed != multiplier && IsState(seed.value) && IsState(multiplier.value)
    requires q <= 29 && scale == Pow(2, q)
    requires s < T46 && seed.value == Stream(multiplier.value.Floor, s, 4 * i) as real
    modifies seed
    ensures seed.value == Stream(multiplier.value.Floor, s, 4 * i + 4) as real
    ensures key == KeyAt(scale, multiplier.value.Floor, s, i)
  {
    ghost var a := multiplier.value.Floor;
    var x := Randlc(fl, seed, multiplier);
    ghost var n := Stream(a, s, 4 * i + 1);
    var u := Randlc(fl, seed, multiplier);
    x := AddUniform(fl, x, u, n, Stream(a, s, 4 * i + 2));
    n := n + Stream(a, s, 4 * i + 2);
    u := Randlc(fl, seed, multiplier);
    x := AddUniform(fl, x, u, n, Stream(a, s, 4 * i + 3));
    n := n + Stream(a, s, 4 * i + 3);
    u := Randlc(fl, seed, multiplier);
    x := AddUniform(fl, x, u, n, Stream(a, s, 4 * i + 4));
    key := ScaleKey(fl, scale, q, x, FourStates(a, s, i));
  }

  /** generate_keys: fills the array with the keys of the stream that starts at `seed`. */
  method GenerateKeys(fl: Rounding, keys: array<nat>, localKeyCount: nat, maxKey: nat, ghost maxKeyLog2: nat,
                      seed: real, multiplier: real)
    requires localKeyCount <= keys.Length
    requires 2 <= maxKeyLog2 <= 31 && maxKey == Pow(2, maxKeyLog2)
    requires IsState(seed) && IsState(multiplier)
    modifies keys
    ensures keys[..localKeyCount] == KeySequence(maxKey / 4, multiplier.Floor, seed.Floor, localKeyCount)
    ensures forall i :: 0 <= i < localKeyCount ==>
              keys[i] == ((maxKey / 4)
                          * ((Pow(multiplier.Floor, 4 * i + 1) * seed.Floor) % T46
                             + (Pow(multiplier.Floor, 4 * i + 2) * seed.Floor) % T46
                             + (Pow(multiplier.Floor, 4 * i + 3) * seed.Floor) % T46
                             + (Pow(multiplier.Floor, 4 * i + 4) * seed.Floor) % T46)) / T46
    ensures forall i :: 0 <= i < localKeyCount ==> keys[i] < maxKey
    ensures keys[localKeyCount..] == old(keys[localKeyCount..])
  {
    ghost var a, s, q := multiplier.Floor, seed.Floor, maxKeyLog2 - 2;
    PowAdd(2, 2, q);
    assert Pow(2, 2) == 4;
    var keyScale := maxKey / 4;
    var state := new DoubleCell(seed);
    var factor := new DoubleCell(multiplier);
    for i := 0 to localKeyCount
      invariant fresh(state) && fresh(factor) && state != factor
      invariant factor.value == multiplier
      invariant state.value == Stream(a, s, 4 * i) as real
      invariant forall j :: 0 <= j < i ==> keys[j] == KeyAt(keyScale, a, s, j)
      invariant forall j :: localKeyCount <= j < keys.Length ==> keys[j] == old(keys[j])
    {
      var key := NextKey(fl, state, factor, keyScale, q, s, i);
      keys[i] := key;
    }
    forall i | 0 <= i < localKeyCount
      ensures keys[i] < maxKey
      ensures keys[i] == (keyScale * ((Pow(a, 4 * i + 1) * s) % T46 + (Pow(a, 4 * i + 2) * s) % T46
                                      + (Pow(a, 4 * i + 3) * s) % T46 + (Pow(a, 4 * i + 4) * s) % T46)) / T46
    {
      KeyBelowMaximum(keyScale, a, s, i);
      KeyFromPowers(keyScale, a, s, i);
    }
  }

  // ---------- the P-rank run reproduces the one-rank stream ----------

  lemma KeyAtOffset(scale: nat, a: nat, s: nat, offset: nat, i: nat)
    requires s < T46
    ensures KeyAt(scale, a, Stream(a, s, 4 * offset), i) == KeyAt(scale, a, s, offset + i)
  {
    StreamSplit(a, s, 4 * offset, 4 * i + 1);
    StreamSplit(a, s, 4 * offset, 4 * i + 2);
    StreamSplit(a, s, 4 * offset, 4 * i + 3);
    StreamSplit(a, s, 4 * offset, 4 * i + 4);
    assert FourStates(a, Stream(a, s, 4 * offset), i) == FourStates(a, s, offset + i);
  }

  /** The keys rank r generates from the seed that find_my_seed returns for it. */
  function RankKeys(scale: nat, a: nat, s: nat, localKeyCount: nat, share: nat, r: nat): (keys: seq<nat>)
    requires s < T46
    ensures |keys| == localKeyCount
  {
    KeySequence(scale, a, Stream(a, s, r * Pow(2, Log2Floor(share))), localKeyCount)
  }

  /** The keys of ranks 0 .. ranks - 1, one after the other. */
  function RankByRank(scale: nat, a: nat, s: nat, localKeyCount: nat, share: nat, ranks: nat): seq<nat>
    requires s < T46
  {
    if ranks == 0 then [] else
      RankByRank(scale, a, s, localKeyCount, share, ranks - 1)
      + RankKeys(scale, a, s, localKeyCount, share, ranks - 1)
  }

  lemma KeySequenceSplit(scale: nat, a: nat, s: nat, m: nat, n: nat)
    requires s < T46
    ensures KeySequence(scale, a, s, m + n)
         == KeySequence(scale, a, s, m) + KeySequence(scale, a, Stream(a, s, 4 * m), n)
  {
    forall i: nat | i < n
      ensures KeyAt(scale, a, Stream(a, s, 4 * m), i) == KeyAt(scale, a, s, m + i)
    {
      KeyAtOffset(scale, a, s, m, i);
    }
  }

  lemma ShareOffsets(ranks: nat, localKeyCount: nat)
    requires ranks > 0
    ensures (ranks - 1) * (4 * localKeyCount) == 4 * ((ranks - 1) * localKeyCount)
    ensures ranks * localKeyCount == (ranks - 1) * localKeyCount + localKeyCount
    ensures 0 <= (ranks - 1) * localKeyCount
  {
  }

  /** When the share is a power of two, the ranks' keys in rank order are the one-rank sequence. */
  lemma {:induction false} StreamPartitionIndependence(scale: nat, a: nat, s: nat, localKeyCount: nat,
                                                       share: nat, ranks: nat)
    requires s < T46 && share == 4 * localKeyCount && Pow(2, Log2Floor(share)) == share
    ensures RankByRank(scale, a, s, localKeyCount, share, ranks) == KeySequence(scale, a, s, ranks * localKeyCount)
  {
    if ranks > 0 {
      StreamPartitionIndependence(scale, a, s, localKeyCount, share, ranks - 1);
      ShareOffsets(ranks, localKeyCount);
      KeySequenceSplit(scale, a, s, (ranks - 1) * localKeyCount, localKeyCount);
    }
  }

  // ---------- run rules ----------

  /** greatest_power_of_two_at_most */
  method GreatestPowerOfTwoAtMost(processCount: nat) returns (activeCount: nat)
    requires processCount >= 1
    ensures activeCount == Pow(2, Log2Floor(processCount)) && activeCount <= processCount < 2 * activeCount
  {
    activeCount := 1;
    ghost var k := 0;
    while activeCount < processCount
      invariant activeCount == Pow(2, k) && activeCount < 2 * processCount
      invariant k == 0 || Pow(2, k - 1) < processCount
      decreases 2 * processCount - activeCount
    {
      activeCount, k := activeCount * 2, k + 1;
    }
    if activeCount > processCount {
      activeCount, k := activeCount / 2, k - 1;
    }
    Log2Between(processCount, k);
  }

  function ComputeLocalKeyCount(totalKeys: nat, minProcs: nat, commSize: nat): nat
    requires commSize > 0
  {
    (totalKeys / commSize) * minProcs
  }

  function ComputeTotalRandomNumbers(totalKeys: nat, minProcs: nat): nat
  {
    4 * (totalKeys * minProcs)
  }

  lemma FourTimesPower(k: nat)
    ensures Pow(2, Log2Floor(4 * Pow(2, k))) == 4 * Pow(2, k)
  {
    assert Pow(2, k + 1) == 2 * Pow(2, k);
    assert Pow(2, k + 2) == 2 * Pow(2, k + 1);
    Log2Between(Pow(2, k + 2), k + 2);
  }

  lemma DivideShare(total: nat, rest: nat, ranks: nat, least: nat)
    requires ranks > 0 && total == rest * ranks
    ensures (4 * (total * least)) / ranks == 4 * (rest * least)
    ensures ranks * (rest * least) == total * least
  {
    assert ranks * (rest * least) == (rest * ranks) * least;
    var share := rest * least;
    assert 4 * (ranks * share) == (4 * share) * ranks;
    ModUnique(4 * (total * least), 4 * share, 0, ranks);
  }

  /**
   The sizes of the problem classes: total keys, the least process count and the process
   count are powers of two, so the share of random numbers per rank is the power of two
   4 * local_key_count, and find_my_seed jumps exactly over the lower ranks' shares.
   */
  lemma ShareIsPowerOfTwo(t: nat, m: nat, p: nat)
    requires p <= t
    ensures var localKeyCount := ComputeLocalKeyCount(Pow(2, t), Pow(2, m), Pow(2, p));
            var share := ComputeTotalRandomNumbers(Pow(2, t), Pow(2, m)) / Pow(2, p);
            && share == 4 * localKeyCount
            && Pow(2, Log2Floor(share)) == share
            && Pow(2, p) * localKeyCount == Pow(2, t) * Pow(2, m)
  {
    var ranks, rest, least := Pow(2, p), Pow(2, t - p), Pow(2, m);
    PowAdd(2, p, t - p);
    ModUnique(Pow(2, t), rest, 0, ranks);
    DivideShare(Pow(2, t), rest, ranks, least);
    PowAdd(2, t - p, m);
    FourTimesPower(t - p + m);
  }

  /** Every problem class on every power-of-two rank count generates the keys of one rank. */
  lemma ClassKeysIndependentOfRankCount(t: nat, m: nat, p: nat, scale: nat, a: nat, s: nat)
    requires p <= t && s < T46
    ensures RankByRank(scale, a, s, ComputeLocalKeyCount(Pow(2, t), Pow(2, m), Pow(2, p)),
                       ComputeTotalRandomNumbers(Pow(2, t), Pow(2, m)) / Pow(2, p), Pow(2, p))
         == KeySequence(scale, a, s, Pow(2, t) * Pow(2, m))
  {
    ShareIsPowerOfTwo(t, m, p);
    StreamPartitionIndependence(scale, a, s, ComputeLocalKeyCount(Pow(2, t), Pow(2, m), Pow(2, p)),
                                ComputeTotalRandomNumbers(Pow(2, t), Pow(2, m)) / Pow(2, p), Pow(2, p));
  }

  lemma RankStart(r: nat, localKeyCount: nat, share: nat)
    requires share == 4 * localKeyCount
    ensures r * share == 4 * (r * localKeyCount) && 0 <= r * localKeyCount
  {
  }

  /** Key i of rank r in plain arithmetic: the draws 4 * n + 1 .. 4 * n + 4 of the sequence, n keys after its start. */
  lemma ClassKeyFromPowers(t: nat, m: nat, p: nat, scale: nat, a: nat, s: nat, r: nat, i: nat)
    requires p <= t && s < T46 && i < ComputeLocalKeyCount(Pow(2, t), Pow(2, m), Pow(2, p))
    ensures var localKeyCount := ComputeLocalKeyCount(Pow(2, t), Pow(2, m), Pow(2, p));
            var share := ComputeTotalRandomNumbers(Pow(2, t), Pow(2, m)) / Pow(2, p);
            var n: nat := r * localKeyCount + i;
            RankKeys(scale, a, s, localKeyCount, share, r)[i]
            == (scale * ((Pow(a, 4 * n + 1) * s) % T46 + (Pow(a, 4 * n + 2) * s) % T46
                         + (Pow(a, 4 * n + 3) * s) % T46 + (Pow(a, 4 * n + 4) * s) % T46)) / T46
  {
    var localKeyCount := ComputeLocalKeyCount(Pow(2, t), Pow(2, m), Pow(2, p));
    var share := ComputeTotalRandomNumbers(Pow(2, t), Pow(2, m)) / Pow(2, p);
    ShareIsPowerOfTwo(t, m, p);
    RankStart(r, localKeyCount, share);
    KeyAtOffset(scale, a, s, r * localKeyCount, i);
    KeyFromPowers(scale, a, s, r * localKeyCount + i);
  }
}
