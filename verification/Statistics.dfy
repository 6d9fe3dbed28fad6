/**
 Sample mean and deviation over the reals, and how many samples can lie far out.

 A standard deviation is any non-negative s whose square is the sample variance.
 */
module Statistics {

  function Twin(x: real): real {
    x
  }

  /** x*x. The second factor goes by another name, which keeps the solver's arithmetic simple. */
  function Square(x: real): real {
    x * Twin(x)
  }

  function Sum(xs: seq<real>): real {
    if xs == [] then 0.0 else Sum(xs[..|xs| - 1]) + xs[|xs| - 1]
  }

  function SumSquares(ys: seq<real>): real {
    if ys == [] then 0.0 else SumSquares(ys[..|ys| - 1]) + Square(ys[|ys| - 1])
  }

  /** The samples, measured from `m`. */
  function Centered(xs: seq<real>, m: real): seq<real> {
    if xs == [] then [] else Centered(xs[..|xs| - 1], m) + [xs[|xs| - 1] - m]
  }

  /** The sum of squared distances from `m`. */
  function SquaredDistance(xs: seq<real>, m: real): real {
    SumSquares(Centered(xs, m))
  }

  function Mean(xs: seq<real>): real {
    if xs == [] then 0.0 else Sum(xs) / |xs| as real
  }

  predicate IsStdDev(xs: seq<real>, s: real) {
    s >= 0.0 &&
    if |xs| < 2 then s == 0.0 else Square(s) * (|xs| as real - 1.0) == SquaredDistance(xs, Mean(xs))
  }

  method CalculateMean(values: seq<real>) returns (mean: real)
    ensures mean == Mean(values)
  {
    if |values| == 0 {
      return 0.0;
    }
    var sum := 0.0;
    for i := 0 to |values|
      invariant sum == Sum(values[..i])
    {
      assert values[..i + 1][..i] == values[..i];
      sum := sum + values[i];
    }
    assert values[..|values|] == values;
    return sum / |values| as real;
  }

  /** The radicand of the source's square root; zero when there are fewer than two values. */
  method CalculateVariance(values: seq<real>, mean: real) returns (variance: real)
    ensures |values| < 2 ==> variance == 0.0
    ensures |values| >= 2 ==> variance == SquaredDistance(values, mean) / (|values| as real - 1.0)
  {
    if |values| < 2 {
      return 0.0;
    }
    var sumSquares := 0.0;
    for i := 0 to |values|
      invariant sumSquares == SquaredDistance(values[..i], mean)
    {
      assert values[..i + 1][..i] == values[..i];
      var diff := values[i] - mean;
      AppendSquare(Centered(values[..i], mean), diff);
      sumSquares := sumSquares + Square(diff);
    }
    assert values[..|values|] == values;
    return sumSquares / (|values| as real - 1.0);
  }

  // ---------------------------------------------------------------------------
  // Products and squares.
  // ---------------------------------------------------------------------------

  lemma {:induction false} MulMonotone(a: real, b: real, c: real)
    requires a <= b && c >= 0.0
    ensures a * c <= b * c
  {
    assert (b - a) * c >= 0.0;
  }

  lemma {:induction false} MulStrict(a: real, b: real, c: real)
    requires a < b && c > 0.0
    ensures a * c < b * c
  {
    assert (b - a) * c > 0.0;
  }

  lemma {:induction false} CancelPositive(a: real, b: real, c: real)
    requires c > 0.0 && a * c <= b * c
    ensures a <= b
  {
    if b < a {
      MulStrict(b, a, c);
    }
  }

  lemma {:induction false} CancelPositiveStrict(a: real, b: real, c: real)
    requires c > 0.0 && a * c < b * c
    ensures a < b
  {
    if b <= a {
      MulMonotone(b, a, c);
    }
  }

  lemma {:induction false} CancelEqual(a: real, b: real, c: real)
    requires c > 0.0 && a * c == b * c
    ensures a == b
  {
    CancelPositive(a, b, c);
    CancelPositive(b, a, c);
  }

  lemma {:induction false} SquareSign(x: real)
    ensures Square(x) >= 0.0 && (x != 0.0 ==> Square(x) > 0.0)
    ensures Square(-x) == Square(x)
  {
  }

  lemma {:induction false} SquareOfSum(a: real, b: real)
    ensures Square(a + b) == Square(a) + 2.0 * (a * b) + Square(b)
  {
  }

  lemma {:induction false} SquareOfProduct(a: real, b: real)
    ensures Square(a * b) == Square(a) * Square(b)
  {
  }

  lemma {:induction false} SquareGrows(t: real, d: real)
    requires t >= 0.0 && (d > t || d < -t)
    ensures Square(d) > Square(t)
  {
    SquareSign(d);
    SquareGrowsUp(t, if d > t then d else -d);
  }

  lemma {:induction false} SquareGrowsUp(t: real, a: real)
    requires 0.0 <= t < a
    ensures Square(a) > Square(t)
  {
    assert (a - t) * a > 0.0;
    assert (a - t) * t >= 0.0;
  }

  // ---------------------------------------------------------------------------
  // Sums.
  // ---------------------------------------------------------------------------

  lemma {:induction false} SumConcat(a: seq<real>, b: seq<real>)
    ensures Sum(a + b) == Sum(a) + Sum(b)
  {
    if b == [] {
      assert a + b == a;
    } else {
      assert (a + b)[..|a + b| - 1] == a + b[..|b| - 1];
      SumConcat(a, b[..|b| - 1]);
    }
  }

  lemma {:induction false} SumSquaresConcat(a: seq<real>, b: seq<real>)
    ensures SumSquares(a + b) == SumSquares(a) + SumSquares(b)
  {
    if b == [] {
      assert a + b == a;
    } else {
      assert (a + b)[..|a + b| - 1] == a + b[..|b| - 1];
      SumSquaresConcat(a, b[..|b| - 1]);
    }
  }

  lemma {:induction false} AppendSquare(ys: seq<real>, y: real)
    ensures SumSquares(ys + [y]) == SumSquares(ys) + Square(y)
  {
    assert (ys + [y])[..|ys|] == ys;
  }

  lemma {:induction false} SumSquaresNonNegative(ys: seq<real>)
    ensures SumSquares(ys) >= 0.0
  {
    if ys == [] {
    } else {
      SumSquaresNonNegative(ys[..|ys| - 1]);
      SquareSign(ys[|ys| - 1]);
    }
  }

  /** The other samples: taking one out takes its share out of both sums. */
  lemma {:induction false} TakeOut(ys: seq<real>, j: nat) returns (others: seq<real>)
    requires j < |ys|
    ensures |others| == |ys| - 1
    ensures Sum(ys) == Sum(others) + ys[j] && SumSquares(ys) == SumSquares(others) + Square(ys[j])
  {
    var a, b, y := ys[..j], ys[j + 1..], [ys[j]];
    others := a + b;
    assert ys == a + (y + b);
    assert y[..0] == [];
    assert Sum(y) == ys[j] && SumSquares(y) == Square(ys[j]);
    SumConcat(a, y + b);
    SumConcat(y, b);
    SumConcat(a, b);
    SumSquaresConcat(a, y + b);
    SumSquaresConcat(y, b);
    SumSquaresConcat(a, b);
  }

  function Repeated(k: nat, f: real): real {
    if k == 0 then 0.0 else Repeated(k - 1, f) + f
  }

  lemma {:induction false} RepeatedIsProduct(k: nat, f: real, r: real)
    requires r == k as real
    ensures Repeated(k, f) == r * f
  {
    if k == 0 {
      assert r * f == 0.0;
    } else {
      RepeatedIsProduct(k - 1, f, r - 1.0);
      assert r * f == (r - 1.0) * f + f;
    }
  }

  lemma {:induction false} CenteredShape(xs: seq<real>, m: real)
    ensures |Centered(xs, m)| == |xs|
    ensures forall i :: 0 <= i < |xs| ==> Centered(xs, m)[i] == xs[i] - m
    ensures Sum(Centered(xs, m)) == Sum(xs) - Repeated(|xs|, m)
  {
    if xs == [] {
    } else {
      var front := xs[..|xs| - 1];
      CenteredShape(front, m);
      assert Centered(xs, m)[..|front|] == Centered(front, m);
    }
  }

  lemma {:induction false} MeanTimesCount(xs: seq<real>)
    requires xs != []
    ensures |xs| as real * Mean(xs) == Sum(xs)
  {
  }

  /** Measured from their mean, samples sum to zero. */
  lemma {:induction false} CenteredOnMean(xs: seq<real>)
    requires xs != []
    ensures Sum(Centered(xs, Mean(xs))) == 0.0
  {
    CenteredShape(xs, Mean(xs));
    RepeatedIsProduct(|xs|, Mean(xs), |xs| as real);
    MeanTimesCount(xs);
  }

  // ---------------------------------------------------------------------------
  // Cauchy-Schwarz: (sum)^2 <= n * (sum of squares).
  // ---------------------------------------------------------------------------

  lemma {:induction false} CrossTerm(k: real, s: real, y: real, q: real)
    requires k > 0.0 && Square(s) <= k * q
    ensures q + k * Square(y) >= 2.0 * (s * y)
  {
    var x := q + k * Square(y) - 2.0 * (s * y);
    SquareOfSum(s, -(k * y));
    SquareSign(s - k * y);
    SquareSign(k * y);
    SquareOfProduct(k, y);
    assert Square(k * y) == k * (k * Square(y));
    assert s * (-(k * y)) == -(k * (s * y));
    assert k * x == k * q + k * (k * Square(y)) - 2.0 * (k * (s * y));
    assert 0.0 * k == 0.0 && x * k == k * x;
    CancelPositive(0.0, x, k);
  }

  lemma {:induction false} CauchyStep(k: real, s: real, y: real, q: real)
    requires (k == 0.0 || k >= 1.0) && q >= 0.0 && Square(s) <= k * q
    ensures Square(s + y) <= (k + 1.0) * (q + Square(y))
  {
    SquareOfSum(s, y);
    assert (k + 1.0) * (q + Square(y)) == k * q + k * Square(y) + q + Square(y);
    if k == 0.0 {
      SquareSign(s);
      assert k * q == 0.0;
      assert s == 0.0;
    } else {
      CrossTerm(k, s, y, q);
    }
  }

  lemma {:induction false} Cauchy(ys: seq<real>, n: real)
    requires n == |ys| as real
    ensures Square(Sum(ys)) <= n * SumSquares(ys)
  {
    if ys == [] {
      assert n * 0.0 == 0.0;
    } else {
      var front := ys[..|ys| - 1];
      Cauchy(front, n - 1.0);
      SumSquaresNonNegative(front);
      CauchyStep(n - 1.0, Sum(front), ys[|ys| - 1], SumSquares(front));
    }
  }

  // ---------------------------------------------------------------------------
  // Samuelson's inequality: one sample cannot lie too far out.
  // ---------------------------------------------------------------------------

  lemma {:induction false} SamuelsonArithmetic(n: real, rest: real, y: real, q: real, qRest: real)
    requires rest + y == 0.0 && q == qRest + Square(y) && Square(rest) <= (n - 1.0) * qRest
    ensures n * Square(y) <= (n - 1.0) * q
  {
    SquareSign(y);
    assert rest == -y;
    SpreadOut(n, Square(y), q);
  }

  lemma {:induction false} SpreadOut(n: real, f: real, q: real)
    requires f <= (n - 1.0) * (q - f)
    ensures n * f <= (n - 1.0) * q
  {
    assert (n - 1.0) * (q - f) == (n - 1.0) * q - n * f + f;
  }

  /** What the other samples, summing to -y, say about y. */
  lemma {:induction false} SamuelsonFromOthers(others: seq<real>, y: real, n: real, q: real)
    requires n == |others| as real + 1.0 && Sum(others) + y == 0.0 && q == SumSquares(others) + Square(y)
    ensures n * Square(y) <= (n - 1.0) * q
  {
    Cauchy(others, n - 1.0);
    SamuelsonArithmetic(n, Sum(others), y, q, SumSquares(others));
  }

  /** For samples that sum to zero, n*y^2 <= (n-1) * (sum of squares) for each of them. */
  lemma {:induction false} Samuelson(ys: seq<real>, j: nat, y: real, n: real, q: real)
    requires j < |ys| && y == ys[j] && n == |ys| as real && Sum(ys) == 0.0 && q == SumSquares(ys)
    ensures n * Square(y) <= (n - 1.0) * q
  {
    var others := TakeOut(ys, j);
    SamuelsonFromOthers(others, y, n, q);
  }

  /** How many standard deviations a value lies from the mean; the source divides only when s > 0. */
  function Deviation(xs: seq<real>, s: real, x: real): real
    requires s > 0.0
  {
    (x - Mean(xs)) / s
  }

  lemma {:induction false} QuotientSquare(e: real, s: real)
    requires s > 0.0
    ensures (e / s) * s == e && Square(e / s) * Square(s) == Square(e)
  {
    assert (e / s) * s == e;
    SquareOfProduct(e / s, s);
  }

  lemma {:induction false} ScaleBound(n: real, dd: real, v: real, ee: real, q: real)
    requires v > 0.0 && dd * v == ee && v * (n - 1.0) == q && n * ee <= (n - 1.0) * q
    ensures dd * n <= Square(n - 1.0)
  {
    assert (dd * n) * v == n * (dd * v);
    assert Square(n - 1.0) * v == (n - 1.0) * (v * (n - 1.0));
    CancelPositive(dd * n, Square(n - 1.0), v);
  }

  /** With n samples of sample deviation s > 0, every deviation d satisfies d*d*n <= (n-1)*(n-1). */
  lemma {:induction false} DeviationBound(xs: seq<real>, s: real, j: nat)
    requires j < |xs| && IsStdDev(xs, s) && s > 0.0
    ensures Square(Deviation(xs, s, xs[j])) * |xs| as real <= Square(|xs| as real - 1.0)
  {
    var ys, n := Centered(xs, Mean(xs)), |xs| as real;
    CenteredOnMean(xs);
    CenteredShape(xs, Mean(xs));
    Samuelson(ys, j, xs[j] - Mean(xs), n, SquaredDistance(xs, Mean(xs)));
    BoundArithmetic(n, s, xs[j] - Mean(xs), SquaredDistance(xs, Mean(xs)));
  }

  lemma {:induction false} BoundArithmetic(n: real, s: real, y: real, q: real)
    requires s > 0.0 && Square(s) * (n - 1.0) == q && n * Square(y) <= (n - 1.0) * q
    ensures Square(y / s) * n <= Square(n - 1.0)
  {
    SquareSign(s);
    QuotientSquare(y, s);
    ScaleBound(n, Square(y / s), Square(s), Square(y), q);
  }

  // ---------------------------------------------------------------------------
  // Chebyshev: few samples can lie far out.
  // ---------------------------------------------------------------------------

  predicate FarOut(y: real, s: real, t: real)
    requires s > 0.0
  {
    y / s > t || y / s < -t
  }

  /** How many of the distances lie more than t deviations out. */
  function CountFarOut(ys: seq<real>, s: real, t: real): nat
    requires s > 0.0
  {
    if ys == [] then 0 else CountFarOut(ys[..|ys| - 1], s, t) + if FarOut(ys[|ys| - 1], s, t) then 1 else 0
  }

  lemma {:induction false} FarOutDistance(y: real, s: real, t: real)
    requires s > 0.0 && t >= 0.0 && FarOut(y, s, t)
    ensures Square(y) > Square(t) * Square(s)
  {
    QuotientSquare(y, s);
    SquareGrows(t, y / s);
    SquareSign(s);
    MulStrict(Square(t), Square(y / s), Square(s));
  }

  /** If every far-out distance squared exceeds c, their squares sum to more than c each. */
  lemma {:induction false} FarOutMass(ys: seq<real>, s: real, t: real, c: real)
    requires s > 0.0
    requires forall y :: y in ys && FarOut(y, s, t) ==> Square(y) > c
    ensures var k := CountFarOut(ys, s, t);
      SumSquares(ys) >= Repeated(k, c) && (k > 0 ==> SumSquares(ys) > Repeated(k, c))
  {
    if ys == [] {
    } else {
      FarOutMass(ys[..|ys| - 1], s, t, c);
      SquareSign(ys[|ys| - 1]);
    }
  }

  lemma {:induction false} FarOutExceeds(ys: seq<real>, s: real, t: real, c: real)
    requires s > 0.0 && t >= 0.0 && c == Square(t) * Square(s)
    ensures forall y :: y in ys && FarOut(y, s, t) ==> Square(y) > c
  {
    forall y | y in ys && FarOut(y, s, t)
      ensures Square(y) > c
    {
      FarOutDistance(y, s, t);
    }
  }

  lemma {:induction false} ScaleStrict(tt: real, v: real, c: real, k: real, n1: real, q: real)
    requires v > 0.0 && v * n1 == q && c == tt * v && q > k * c
    ensures tt * k < n1
  {
    assert (tt * k) * v == k * c;
    assert n1 * v == v * n1;
    CancelPositiveStrict(tt * k, n1, v);
  }

  /** With n samples, the k samples more than t deviations out, if any, satisfy t*t*k < n-1. */
  lemma {:induction false} ChebyshevBound(xs: seq<real>, s: real, t: real)
    requires |xs| >= 2 && IsStdDev(xs, s) && s > 0.0 && t >= 0.0
    ensures var k := CountFarOut(Centered(xs, Mean(xs)), s, t);
      k > 0 ==> Square(t) * k as real < |xs| as real - 1.0
  {
    ChebyshevCentered(Centered(xs, Mean(xs)), s, t, |xs| as real - 1.0, SquaredDistance(xs, Mean(xs)));
  }

  lemma {:induction false} ChebyshevCentered(ys: seq<real>, s: real, t: real, n1: real, q: real)
    requires s > 0.0 && t >= 0.0 && q == SumSquares(ys) && Square(s) * n1 == q
    ensures CountFarOut(ys, s, t) > 0 ==> Square(t) * CountFarOut(ys, s, t) as real < n1
  {
    var k, c := CountFarOut(ys, s, t), Square(t) * Square(s);
    CombinedMass(ys, s, t, c);
    if k > 0 {
      ChebyshevArithmetic(k, t, s, c, n1, q);
    }
  }

  lemma {:induction false} CombinedMass(ys: seq<real>, s: real, t: real, c: real)
    requires s > 0.0 && t >= 0.0 && c == Square(t) * Square(s)
    ensures CountFarOut(ys, s, t) > 0 ==> SumSquares(ys) > Repeated(CountFarOut(ys, s, t), c)
  {
    FarOutExceeds(ys, s, t, c);
    FarOutMass(ys, s, t, c);
  }

  lemma {:induction false} ChebyshevArithmetic(k: nat, t: real, s: real, c: real, n1: real, q: real)
    requires s > 0.0 && c == Square(t) * Square(s) && Square(s) * n1 == q && q > Repeated(k, c)
    ensures Square(t) * k as real < n1
  {
    RepeatedIsProduct(k, c, k as real);
    SquareSign(s);
    ScaleStrict(Square(t), Square(s), c, k as real, n1, q);
  }

  // ---------------------------------------------------------------------------
  // How many samples a deviation takes.
  // ---------------------------------------------------------------------------

  /** A deviation beyond t takes more than t*t*n < (n-1)*(n-1) samples. */
  lemma {:induction false} NeededFor(n: nat, d: real, t: nat)
    requires n > 0 && Square(d) * n as real <= Square(n as real - 1.0)
    requires d > t as real || d < -(t as real)
    ensures t * t * n < (n - 1) * (n - 1)
  {
    SquareGrows(t as real, d);
    MulStrict(Square(t as real), Square(d), n as real);
    ProductAsReal(t, t);
    ProductAsReal(t * t, n);
    ProductAsReal(n - 1, n - 1);
    assert Square(t as real) == (t * t) as real;
    assert Square(n as real - 1.0) == ((n - 1) * (n - 1)) as real;
  }

  lemma {:induction false} ProductAsReal(a: int, b: nat)
    ensures (a * b) as real == a as real * b as real
  {
    if b == 0 {
    } else {
      ProductAsReal(a, b - 1);
      assert a * b == a * (b - 1) + a;
    }
  }

  lemma {:induction false} MulUpTo(n: nat, a: int, b: int)
    requires a <= b
    ensures n * a <= n * b
  {
    assert n * (b - a) >= 0;
  }

  lemma {:induction false} SmallCounts(n: nat, t: nat)
    requires n > 0 && t * t * n < (n - 1) * (n - 1)
    ensures t == 2 ==> n >= 6
    ensures t == 3 ==> n >= 11
    ensures t == 4 ==> n >= 18
  {
    assert (n - 1) * (n - 1) == n * (n - 2) + 1;
    if t == 2 && n <= 5 {
      MulUpTo(n, n - 2, 3);
    } else if t == 3 && n <= 10 {
      MulUpTo(n, n - 2, 8);
    } else if t == 4 && n <= 17 {
      MulUpTo(n, n - 2, 15);
    }
  }

  /** Deviations beyond 2, 3 and 4 take at least 6, 11 and 18 samples. */
  lemma {:induction false} SamplesNeeded(xs: seq<real>, s: real, j: nat, t: nat)
    requires j < |xs| && IsStdDev(xs, s) && s > 0.0
    requires Deviation(xs, s, xs[j]) > t as real || Deviation(xs, s, xs[j]) < -(t as real)
    ensures t == 2 ==> |xs| >= 6
    ensures t == 3 ==> |xs| >= 11
    ensures t == 4 ==> |xs| >= 18
  {
    DeviationBound(xs, s, j);
    NeededFor(|xs|, Deviation(xs, s, xs[j]), t);
    SmallCounts(|xs|, t);
  }

  // ---------------------------------------------------------------------------
  // The bounds are attained.
  // ---------------------------------------------------------------------------

  function Ones(k: nat): seq<real> {
    if k == 0 then [] else Ones(k - 1) + [1.0]
  }

  /** n windows with one entry each, except the last, which has two. */
  function OneSpike(n: nat): seq<real>
    requires n >= 1
  {
    Ones(n - 1) + [2.0]
  }

  lemma {:induction false} OnesSum(k: nat, m: real)
    ensures |Ones(k)| == k && Sum(Ones(k)) == k as real
    ensures SquaredDistance(Ones(k), m) == Repeated(k, Square(1.0 - m))
  {
    if k == 0 {
    } else {
      OnesSum(k - 1, m);
      Append(Ones(k - 1), 1.0, m);
    }
  }

  lemma {:induction false} Append(xs: seq<real>, x: real, m: real)
    ensures Sum(xs + [x]) == Sum(xs) + x
    ensures SquaredDistance(xs + [x], m) == SquaredDistance(xs, m) + Square(x - m)
  {
    assert (xs + [x])[..|xs|] == xs;
    AppendSquare(Centered(xs, m), x - m);
  }

  lemma {:induction false} SpikeSums(n: nat, m: real)
    requires n >= 1
    ensures |OneSpike(n)| == n && Sum(OneSpike(n)) == n as real + 1.0
    ensures SquaredDistance(OneSpike(n), m) == (n as real - 1.0) * Square(1.0 - m) + Square(2.0 - m)
  {
    OnesSum(n - 1, m);
    RepeatedIsProduct(n - 1, Square(1.0 - m), n as real - 1.0);
    Append(Ones(n - 1), 2.0, m);
  }

  /** r*e = r-1, r*f = -1 and v*(r-1) = (r-1)*f*f + e*e make v the reciprocal of r. */
  lemma {:induction false} SpikeArithmetic(r: real, f: real, e: real, v: real)
    requires r >= 2.0 && r * e == r - 1.0 && r * f == -1.0
    requires v * (r - 1.0) == (r - 1.0) * Square(f) + Square(e)
    ensures r * v == 1.0
  {
    var r1, ff, ee := r - 1.0, Square(f), Square(e);
    SquareOfProduct(r, f);
    SquareOfProduct(r, e);
    var rr := Square(r);
    assert rr * ff == 1.0;
    assert rr * ee == Square(r1);
    Distribute(rr, r1, ff, ee);
    assert rr * (v * r1) == r1 + Square(r1);
    assert r1 + Square(r1) == r * r1;
    assert rr * (v * r1) == ((r * v) * r) * r1;
    CancelEqual((r * v) * r, r, r1);
    assert 1.0 * r == r;
    CancelEqual(r * v, 1.0, r);
  }

  lemma {:induction false} Distribute(rr: real, r1: real, ff: real, ee: real)
    ensures rr * (r1 * ff + ee) == r1 * (rr * ff) + rr * ee
  {
  }

  lemma {:induction false} SpikeDeviation(r: real, e: real, v: real, dd: real)
    requires r * e == r - 1.0 && r * v == 1.0 && dd * v == Square(e)
    ensures dd * r == Square(r - 1.0)
  {
    SquareOfProduct(r, e);
    assert Square(r) * (dd * v) == (dd * r) * (r * v);
  }

  lemma {:induction false} PositiveOfProduct(r: real, e: real)
    requires r > 0.0 && r * e > 0.0
    ensures e > 0.0
  {
    assert 0.0 * r == 0.0 && e * r == r * e;
    CancelPositiveStrict(0.0, e, r);
  }

  /**
   For every n there are n window counts whose largest deviation meets the bound exactly, so the limits
   of 6, 11 and 18 windows cannot be raised.
   */
  lemma {:induction false} SpikeAttainsBound(n: nat, s: real)
    requires n >= 2 && IsStdDev(OneSpike(n), s)
    ensures s > 0.0
    ensures Deviation(OneSpike(n), s, 2.0) > 0.0
    ensures Square(Deviation(OneSpike(n), s, 2.0)) * n as real == Square(n as real - 1.0)
  {
    var xs, r := OneSpike(n), n as real;
    var m := Mean(xs);
    SpikeSums(n, m);
    MeanTimesCount(xs);
    SpikeAt(r, m, s);
    QuotientSquare(2.0 - m, s);
    SpikeDeviation(r, 2.0 - m, Square(s), Square((2.0 - m) / s));
    PositiveOfProduct(r, 2.0 - m);
    PositiveOfProduct(s, (2.0 - m) / s);
  }

  lemma {:induction false} SpikeAt(r: real, m: real, s: real)
    requires r >= 2.0 && r * m == r + 1.0 && s >= 0.0
    requires Square(s) * (r - 1.0) == (r - 1.0) * Square(1.0 - m) + Square(2.0 - m)
    ensures r * (2.0 - m) == r - 1.0 && r * Square(s) == 1.0 && s > 0.0
  {
    assert r * (2.0 - m) == 2.0 * r - r * m && r * (1.0 - m) == r - r * m;
    SpikeArithmetic(r, 1.0 - m, 2.0 - m, Square(s));
    assert s == 0.0 ==> Square(s) == 0.0;
    assert Square(s) == 0.0 ==> r * Square(s) == 0.0;
  }
}
