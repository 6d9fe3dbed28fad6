/** Percentiles by linear interpolation between neighbouring samples. */
module Percentile {

  import opened Wrappers

  predicate Ordered(s: seq<real>) {
    forall i, j :: 0 <= i <= j < |s| ==> s[i] <= s[j]
  }

  function Insert(s: seq<real>, x: real): seq<real> {
    if s == [] then [x]
    else if s[|s| - 1] <= x then s + [x]
    else Insert(s[..|s| - 1], x) + [s[|s| - 1]]
  }

  /** The samples in ascending order. */
  function Sorted(xs: seq<real>): seq<real> {
    if xs == [] then [] else Insert(Sorted(xs[..|xs| - 1]), xs[|xs| - 1])
  }

  function Ceil(x: real): int {
    -(-x).Floor
  }

  function Blend(a: real, b: real, weight: real): real {
    a * (1.0 - weight) + b * weight
  }

  /** The index counts from 0 to |values|-1, and need not be whole. */
  function Index(n: nat, p: real): real {
    (p / 100.0) * (n as real - 1.0)
  }

  /** None stands for the run-time error of indexing outside the samples. */
  function At(s: seq<real>, index: real): Option<real> {
    var lower, upper := index.Floor, Ceil(index);
    if lower < 0 || upper >= |s| || upper < 0 || lower >= |s| then None
    else if lower == upper then Some(s[lower])
    else Some(Blend(s[lower], s[upper], index - lower as real))
  }

  function CalculatePercentile(values: seq<real>, p: real): Option<real> {
    if values == [] then Some(0.0) else At(Sorted(values), Index(|values|, p))
  }

  // ---------------------------------------------------------------------------
  // Sorting.
  // ---------------------------------------------------------------------------

  lemma {:induction false} FrontAndLast(s: seq<real>)
    requires s != []
    ensures multiset(s) == multiset(s[..|s| - 1]) + multiset{s[|s| - 1]}
  {
    assert s == s[..|s| - 1] + [s[|s| - 1]];
  }

  lemma {:induction false} AppendOrdered(s: seq<real>, x: real)
    requires Ordered(s) && (s == [] || s[|s| - 1] <= x)
    ensures Ordered(s + [x])
  {
  }

  lemma {:induction false} InsertOrders(s: seq<real>, x: real)
    requires Ordered(s)
    ensures Ordered(Insert(s, x)) && Insert(s, x) != []
    ensures Insert(s, x)[|Insert(s, x)| - 1] == x || (s != [] && Insert(s, x)[|Insert(s, x)| - 1] == s[|s| - 1])
  {
    if s != [] && x < s[|s| - 1] {
      InsertOrders(s[..|s| - 1], x);
      AppendOrdered(Insert(s[..|s| - 1], x), s[|s| - 1]);
    }
  }

  lemma {:induction false} InsertKeeps(s: seq<real>, x: real)
    ensures multiset(Insert(s, x)) == multiset(s) + multiset{x}
  {
    if s != [] && x < s[|s| - 1] {
      InsertKeeps(s[..|s| - 1], x);
      FrontAndLast(s);
    }
  }

  lemma {:induction false} SortedSorts(xs: seq<real>)
    ensures Ordered(Sorted(xs)) && multiset(Sorted(xs)) == multiset(xs)
    ensures |Sorted(xs)| == |xs|
  {
    if xs == [] {
    } else {
      var front, last := xs[..|xs| - 1], xs[|xs| - 1];
      SortedSorts(front);
      InsertOrders(Sorted(front), last);
      InsertKeeps(Sorted(front), last);
      FrontAndLast(xs);
    }
    SameLength(Sorted(xs), xs);
  }

  lemma {:induction false} SameLength(s: seq<real>, t: seq<real>)
    requires multiset(s) == multiset(t)
    ensures |s| == |t|
  {
    assert |multiset(s)| == |multiset(t)|;
  }

  lemma {:induction false} LastIsLargest(s: seq<real>, x: real)
    requires Ordered(s) && x in multiset(s)
    ensures s != [] && x <= s[|s| - 1]
  {
    assert x in s;
  }

  /** There is only one way to order given samples. */
  lemma {:induction false} OrderUnique(s: seq<real>, t: seq<real>)
    requires Ordered(s) && Ordered(t) && multiset(s) == multiset(t)
    ensures s == t
  {
    SameLength(s, t);
    if s == [] {
    } else {
      FrontAndLast(s);
      FrontAndLast(t);
      LastIsLargest(t, s[|s| - 1]);
      LastIsLargest(s, t[|t| - 1]);
      SameFronts(multiset(s[..|s| - 1]), multiset(t[..|t| - 1]), s[|s| - 1]);
      OrderUnique(s[..|s| - 1], t[..|t| - 1]);
      assert s == s[..|s| - 1] + [s[|s| - 1]];
      assert t == t[..|t| - 1] + [t[|t| - 1]];
    }
  }

  lemma {:induction false} SameFronts(s: multiset<real>, t: multiset<real>, x: real)
    requires s + multiset{x} == t + multiset{x}
    ensures s == t
  {
    assert s == (s + multiset{x}) - multiset{x};
    assert t == (t + multiset{x}) - multiset{x};
  }

  /** The percentile does not depend on the order of the samples. */
  lemma {:induction false} PercentileIgnoresOrder(xs: seq<real>, ys: seq<real>, p: real)
    requires multiset(xs) == multiset(ys)
    ensures CalculatePercentile(xs, p) == CalculatePercentile(ys, p)
  {
    assert |multiset(xs)| == |multiset(ys)|;
    SortedSorts(xs);
    SortedSorts(ys);
    OrderUnique(Sorted(xs), Sorted(ys));
  }

  // ---------------------------------------------------------------------------
  // Interpolation.
  // ---------------------------------------------------------------------------

  lemma {:induction false} ProductSign(a: real, b: real)
    requires a >= 0.0 && b >= 0.0
    ensures a * b >= 0.0
  {
  }

  lemma {:induction false} BlendForm(a: real, b: real, w: real)
    ensures Blend(a, b, w) == a + (b - a) * w == b - (b - a) * (1.0 - w)
  {
  }

  lemma {:induction false} BlendBetween(a: real, b: real, w: real)
    requires a <= b && 0.0 <= w <= 1.0
    ensures a <= Blend(a, b, w) <= b
  {
    BlendForm(a, b, w);
    ProductSign(b - a, w);
    ProductSign(b - a, 1.0 - w);
  }

  lemma {:induction false} BlendMonotone(a: real, b: real, v: real, w: real)
    requires a <= b && v <= w
    ensures Blend(a, b, v) <= Blend(a, b, w)
  {
    BlendForm(a, b, v);
    BlendForm(a, b, w);
    ProductSign(b - a, w - v);
    assert (b - a) * (w - v) == (b - a) * w - (b - a) * v;
  }

  lemma {:induction false} CeilIsNext(x: real)
    ensures x.Floor as real == x ==> Ceil(x) == x.Floor
    ensures x.Floor as real != x ==> Ceil(x) == x.Floor + 1
  {
  }

  /** Inside the range there is a value, and it lies between the two neighbours. */
  lemma {:induction false} AtBetween(s: seq<real>, x: real)
    requires Ordered(s) && 0.0 <= x <= |s| as real - 1.0
    ensures 0 <= x.Floor <= Ceil(x) < |s|
    ensures At(s, x).Some? && s[x.Floor] <= At(s, x).value <= s[Ceil(x)]
  {
    CeilIsNext(x);
    if x.Floor != Ceil(x) {
      BlendBetween(s[x.Floor], s[Ceil(x)], x - x.Floor as real);
    }
  }

  lemma {:induction false} AtMonotone(s: seq<real>, x: real, y: real)
    requires Ordered(s) && 0.0 <= x <= y <= |s| as real - 1.0
    ensures At(s, x).Some? && At(s, y).Some? && At(s, x).value <= At(s, y).value
  {
    AtBetween(s, x);
    AtBetween(s, y);
    CeilIsNext(x);
    CeilIsNext(y);
    var l := x.Floor;
    if l == y.Floor && x.Floor as real != x {
      BlendMonotone(s[l], s[l + 1], x - l as real, y - l as real);
    }
  }

  lemma {:induction false} IndexRange(n: nat, p: real)
    requires n >= 2
    ensures 0.0 <= p <= 100.0 ==> 0.0 <= Index(n, p) <= n as real - 1.0
    ensures p < 0.0 ==> Index(n, p) < 0.0
    ensures p > 100.0 ==> Index(n, p) > n as real - 1.0
  {
    ScaledRange(p, p / 100.0, n as real - 1.0, Index(n, p));
  }

  lemma {:induction false} ScaledRange(p: real, q: real, m: real, index: real)
    requires m > 0.0 && q == p / 100.0 && index == q * m
    ensures 0.0 <= p <= 100.0 ==> 0.0 <= index <= m
    ensures p < 0.0 ==> index < 0.0
    ensures p > 100.0 ==> index > m
  {
    assert (p < 0.0 <==> q < 0.0) && (p > 100.0 <==> q > 1.0) by {
      Hundredth(p, q);
    }
    Scale(q, m);
  }

  lemma {:induction false} Hundredth(p: real, q: real)
    requires q == p / 100.0
    ensures p < 0.0 <==> q < 0.0
    ensures p > 100.0 <==> q > 1.0
  {
  }

  lemma {:induction false} Scale(q: real, m: real)
    requires m > 0.0
    ensures q < 0.0 ==> q * m < 0.0
    ensures 0.0 <= q <= 1.0 ==> 0.0 <= q * m <= m
    ensures q > 1.0 ==> q * m > m
  {
    Spread(1.0, q, m);
    if q < 0.0 {
      Stretch(-q, m);
    } else if q <= 1.0 {
      ProductSign(q, m);
      ProductSign(1.0 - q, m);
    } else {
      Stretch(q - 1.0, m);
    }
  }

  lemma {:induction false} Stretch(a: real, b: real)
    requires a > 0.0 && b > 0.0
    ensures a * b > 0.0
  {
  }

  lemma {:induction false} IndexMonotone(n: nat, p: real, q: real)
    requires n >= 1 && p <= q
    ensures Index(n, p) <= Index(n, q)
  {
    ProductSign((q - p) / 100.0, n as real - 1.0);
    assert (q - p) / 100.0 == q / 100.0 - p / 100.0;
    Spread(q / 100.0, p / 100.0, n as real - 1.0);
  }

  lemma {:induction false} Spread(a: real, b: real, c: real)
    ensures (a - b) * c == a * c - b * c
  {
  }

  lemma {:induction false} AtOutside(s: seq<real>, x: real)
    requires x < 0.0 || x > |s| as real - 1.0
    ensures At(s, x) == None
  {
    CeilIsNext(x);
  }

  /** There is a percentile exactly for a percentage from 0 to 100, or for at most one sample. */
  lemma {:induction false} PercentileExistsIff(xs: seq<real>, p: real)
    ensures CalculatePercentile(xs, p).Some? <==> |xs| <= 1 || 0.0 <= p <= 100.0
  {
    if |xs| == 1 {
      SortedSorts(xs);
      assert Index(1, p) == 0.0;
    } else if |xs| >= 2 {
      SortedSorts(xs);
      IndexRange(|xs|, p);
      if 0.0 <= p <= 100.0 {
        AtBetween(Sorted(xs), Index(|xs|, p));
      } else {
        AtOutside(Sorted(xs), Index(|xs|, p));
      }
    }
  }

  lemma {:induction false} IndexInside(n: nat, p: real)
    requires n >= 1 && 0.0 <= p <= 100.0
    ensures 0.0 <= Index(n, p) <= n as real - 1.0
  {
    if n == 1 {
      assert Index(n, p) == 0.0;
    } else {
      IndexRange(n, p);
    }
  }

  /** A larger percentage never gives a smaller value. */
  lemma {:induction false} PercentileMonotone(xs: seq<real>, p: real, q: real)
    requires 0.0 <= p <= q <= 100.0
    ensures CalculatePercentile(xs, p).Some? && CalculatePercentile(xs, q).Some?
    ensures CalculatePercentile(xs, p).value <= CalculatePercentile(xs, q).value
  {
    if xs != [] {
      SortedSorts(xs);
      IndexInside(|xs|, p);
      IndexInside(|xs|, q);
      IndexMonotone(|xs|, p, q);
      AtMonotone(Sorted(xs), Index(|xs|, p), Index(|xs|, q));
    }
  }

  predicate IsMin(m: real, xs: seq<real>) {
    m in xs && forall x :: x in xs ==> m <= x
  }

  predicate IsMax(m: real, xs: seq<real>) {
    m in xs && forall x :: x in xs ==> x <= m
  }

  lemma {:induction false} EndsOfSorted(xs: seq<real>)
    requires xs != []
    ensures |Sorted(xs)| == |xs| && IsMin(Sorted(xs)[0], xs) && IsMax(Sorted(xs)[|xs| - 1], xs)
  {
    SortedSorts(xs);
    var s := Sorted(xs);
    assert forall x :: x in xs <==> x in multiset(s);
    assert s[0] in multiset(s) && s[|xs| - 1] in multiset(s);
  }

  /** Percentile 0 is the minimum, 100 the maximum, and every other lies between them. */
  lemma {:induction false} PercentileEnds(xs: seq<real>, p: real)
    requires xs != [] && 0.0 <= p <= 100.0
    ensures CalculatePercentile(xs, 0.0).Some? && IsMin(CalculatePercentile(xs, 0.0).value, xs)
    ensures CalculatePercentile(xs, 100.0).Some? && IsMax(CalculatePercentile(xs, 100.0).value, xs)
    ensures CalculatePercentile(xs, p).Some?
    ensures CalculatePercentile(xs, 0.0).value <= CalculatePercentile(xs, p).value
    ensures CalculatePercentile(xs, p).value <= CalculatePercentile(xs, 100.0).value
  {
    SortedSorts(xs);
    EndsOfSorted(xs);
    PercentileMonotone(xs, 0.0, p);
    PercentileMonotone(xs, p, 100.0);
    assert Index(|xs|, 0.0) == 0.0;
    assert Index(|xs|, 100.0) == |xs| as real - 1.0;
    CeilIsNext(0.0);
    CeilIsNext(|xs| as real - 1.0);
  }

  /** With n samples, the k-th of the n-1 equal steps from 0 to 100 is the k-th smallest sample. */
  lemma {:induction false} PercentileAtStep(xs: seq<real>, k: nat)
    requires k < |xs| && |xs| >= 2
    ensures |Sorted(xs)| == |xs|
    ensures CalculatePercentile(xs, 100.0 * k as real / (|xs| as real - 1.0)) == Some(Sorted(xs)[k])
  {
    SortedSorts(xs);
    StepIndex(|xs|, k);
    CeilIsNext(k as real);
  }

  lemma {:induction false} StepIndex(n: nat, k: nat)
    requires n >= 2
    ensures Index(n, 100.0 * k as real / (n as real - 1.0)) == k as real
  {
    Cancel(k as real, n as real - 1.0);
  }

  lemma {:induction false} Cancel(k: real, m: real)
    requires m > 0.0
    ensures ((100.0 * k / m) / 100.0) * m == k
  {
    assert (100.0 * k / m) / 100.0 == k / m;
  }

  /** Percentage p of n samples lies a share w of the way from the k-th smallest to the next. */
  predicate Lies(n: nat, p: real, k: nat, w: real) {
    0.0 <= w <= 1.0 && p * (n as real - 1.0) == 100.0 * (k as real + w)
  }

  /** The value a share w of the way from a to b. */
  function Between(a: real, b: real, w: real): real {
    a + (b - a) * w
  }

  lemma {:induction false} Regroup(p: real, m: real, index: real)
    requires p * m == 100.0 * index
    ensures p / 100.0 * m == index
  {
    assert p / 100.0 * m == (p * m) / 100.0;
  }

  lemma {:induction false} IndexLies(n: nat, p: real, k: nat, w: real)
    requires Lies(n, p, k, w)
    ensures Index(n, p) == k as real + w
  {
    Regroup(p, n as real - 1.0, k as real + w);
  }

  lemma {:induction false} BetweenIs(a: real, b: real, w: real)
    ensures Between(a, b, 0.0) == a && Between(a, b, 1.0) == b && Between(a, b, w) == Blend(a, b, w)
  {
    BlendForm(a, b, w);
  }

  lemma {:induction false} AtIsLinear(s: seq<real>, k: nat, w: real, x: real)
    requires k + 1 < |s| && 0.0 <= w <= 1.0 && x == k as real + w
    ensures At(s, x) == Some(Between(s[k], s[k + 1], w))
  {
    CeilIsNext(x);
    BetweenIs(s[k], s[k + 1], w);
    if w == 0.0 {
      assert x.Floor == k;
    } else if w == 1.0 {
      assert x.Floor == k + 1;
    } else {
      assert x.Floor == k && Ceil(x) == k + 1;
      assert x - k as real == w;
    }
  }

  /**
   Between two neighbouring samples the value runs straight from one to the other: at the k-th smallest sample and
   a share w of the way to the next, it lies a share w of their distance above the k-th.
   */
  lemma {:induction false} PercentileIsLinear(xs: seq<real>, k: nat, w: real, p: real)
    requires k + 1 < |xs| && Lies(|xs|, p, k, w)
    ensures |Sorted(xs)| == |xs|
    ensures CalculatePercentile(xs, p) == Some(Between(Sorted(xs)[k], Sorted(xs)[k + 1], w))
  {
    SortedSorts(xs);
    IndexLies(|xs|, p, k, w);
    AtIsLinear(Sorted(xs), k, w, Index(|xs|, p));
  }
}
