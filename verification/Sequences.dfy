/** Order-preserving subsequences, the currency of every "nothing is reordered" result. */
module Sequences {

  /** True iff `a` can be obtained from `b` by deleting elements, keeping the order of the rest. */
  ghost predicate Subsequence<T>(a: seq<T>, b: seq<T>)
    decreases |b|
  {
    if b == [] then a == []
    else
      var front := b[..|b| - 1];
      || Subsequence(a, front)
      || (a != [] && a[|a| - 1] == b[|b| - 1] && Subsequence(a[..|a| - 1], front))
  }

  lemma {:induction false} SubsequenceExtend<T>(a: seq<T>, b: seq<T>, x: T)
    requires Subsequence(a, b)
    ensures Subsequence(a, b + [x])
    ensures Subsequence(a + [x], b + [x])
  {
    assert (b + [x])[..|b|] == b;
    assert (a + [x])[..|a|] == a;
  }

  lemma {:induction false} SubsequenceTransitive<T>(a: seq<T>, b: seq<T>, c: seq<T>)
    requires Subsequence(a, b) && Subsequence(b, c)
    ensures Subsequence(a, c)
    decreases |c|
  {
    if c == [] {
    } else {
      var front := c[..|c| - 1];
      if Subsequence(b, front) {
        SubsequenceTransitive(a, b, front);
      } else {
        var b' := b[..|b| - 1];
        if Subsequence(a, b') {
          SubsequenceTransitive(a, b', front);
        } else {
          SubsequenceTransitive(a[..|a| - 1], b', front);
        }
      }
    }
  }

  lemma {:induction false} SubsequenceReflexive<T>(a: seq<T>)
    ensures Subsequence(a, a)
  {
    if a == [] {
    } else {
      SubsequenceReflexive(a[..|a| - 1]);
    }
  }

  /** Deleting a block from the middle leaves a subsequence. */
  lemma {:induction false} DropMiddle<T>(x: seq<T>, y: seq<T>, z: seq<T>)
    ensures Subsequence(x + z, x + y + z)
    decreases |y| + |z|
  {
    if z != [] {
      var last := z[|z| - 1];
      var z' := z[..|z| - 1];
      DropMiddle(x, y, z');
      SubsequenceExtend(x + z', x + y + z', last);
      assert x + z == (x + z') + [last];
      assert x + y + z == (x + y + z') + [last];
    } else if y != [] {
      var y' := y[..|y| - 1];
      DropMiddle(x, y', []);
      assert x + [] == x && x + y' + [] == x + y';
      SubsequenceExtend(x, x + y', y[|y| - 1]);
      assert x + y + [] == (x + y') + [y[|y| - 1]];
      assert x + z == x;
    } else {
      assert x + z == x && x + y + z == x;
      SubsequenceReflexive(x);
    }
  }

  /** A subsequence under a common prefix. */
  lemma {:induction false} SubsequencePrefix<T>(p: seq<T>, a: seq<T>, b: seq<T>)
    requires Subsequence(a, b)
    ensures Subsequence(p + a, p + b)
    decreases |b|
  {
    if b == [] {
      SubsequenceReflexive(p + a);
    } else {
      var front := b[..|b| - 1];
      var last := b[|b| - 1];
      assert p + b == (p + front) + [last];
      if Subsequence(a, front) {
        SubsequencePrefix(p, a, front);
        SubsequenceExtend(p + a, p + front, last);
      } else {
        var a' := a[..|a| - 1];
        SubsequencePrefix(p, a', front);
        SubsequenceExtend(p + a', p + front, last);
        assert p + a == (p + a') + [last];
      }
    }
  }

  predicate Distinct<T(==)>(s: seq<T>) {
    forall i, j :: 0 <= i < j < |s| ==> s[i] != s[j]
  }

  /** Two elements of a subsequence stand in the same order in the whole. */
  lemma {:induction false} SubsequencePlaces<T>(a: seq<T>, b: seq<T>, p: nat, q: nat) returns (i: nat, j: nat)
    requires Subsequence(a, b) && p < q < |a|
    ensures i < j < |b| && b[i] == a[p] && b[j] == a[q]
    decreases |b|
  {
    var front := b[..|b| - 1];
    if Subsequence(a, front) {
      i, j := SubsequencePlaces(a, front, p, q);
    } else if q < |a| - 1 {
      i, j := SubsequencePlaces(a[..|a| - 1], front, p, q);
    } else {
      i := SubsequencePlace(a[..|a| - 1], front, p);
      j := |b| - 1;
    }
  }

  lemma {:induction false} SubsequencePlace<T>(a: seq<T>, b: seq<T>, p: nat) returns (i: nat)
    requires Subsequence(a, b) && p < |a|
    ensures i < |b| && b[i] == a[p]
    decreases |b|
  {
    var front := b[..|b| - 1];
    if Subsequence(a, front) {
      i := SubsequencePlace(a, front, p);
    } else if p < |a| - 1 {
      i := SubsequencePlace(a[..|a| - 1], front, p);
    } else {
      i := |b| - 1;
    }
  }

  lemma {:induction false} BlockHeads<T>(x: seq<T>, u: seq<T>, v: seq<T>, z: seq<T>)
    requires u != [] && v != []
    ensures var all := x + u + v + z;
      |x| + |u| < |all| && all[|x|] == u[0] && all[|x| + |u|] == v[0]
  {
  }

  lemma {:induction false} SamePlace<T>(whole: seq<T>, i: nat, j: nat)
    requires Distinct(whole) && i < |whole| && j < |whole| && whole[i] == whole[j]
    ensures i == j
  {
  }

  /** Of distinct elements, all subsequences agree on what comes first. */
  lemma {:induction false} SubsequencesAgree<T>(a: seq<T>, b: seq<T>, whole: seq<T>, p: nat, q: nat, r: nat, t: nat)
    requires Distinct(whole) && Subsequence(a, whole) && Subsequence(b, whole)
    requires p < q < |a| && r < t < |b| && a[p] == b[t]
    ensures a[q] != b[r]
  {
    var i, j := SubsequencePlaces(a, whole, p, q);
    var k, l := SubsequencePlaces(b, whole, r, t);
    SamePlace(whole, i, l);
    assert whole[k] != whole[j];
  }

  /** Two neighbouring blocks of a subsequence of distinct elements cannot change places. */
  lemma {:induction false} SwapBreaksOrder<T>(x: seq<T>, u: seq<T>, v: seq<T>, z: seq<T>, whole: seq<T>)
    requires u != [] && v != [] && Distinct(whole) && Subsequence(x + u + v + z, whole)
    ensures !Subsequence(x + v + u + z, whole)
  {
    BlockHeads(x, u, v, z);
    BlockHeads(x, v, u, z);
    if Subsequence(x + v + u + z, whole) {
      SubsequencesAgree(x + u + v + z, x + v + u + z, whole, |x|, |x| + |u|, |x|, |x| + |v|);
    }
  }
}
