/**
 * Rectangular grids of cells, the periodic neighbour indices used by every
 * `np.roll`-based stencil of the system, and sums and means over sequences
 * and grids.
 */
module Grids {

  /** A row-major H x W field of reals (a numpy float array). */
  type Grid = seq<seq<real>>

  /** A row-major H x W field of booleans (a numpy bool array). */
  type BoolGrid = seq<seq<bool>>

  /** `g` has exactly `h` rows of `w` cells each. */
  predicate IsGrid<T>(g: seq<seq<T>>, h: nat, w: nat)
  {
    |g| == h && forall i :: 0 <= i < h ==> |g[i]| == w
  }

  /** `g` is rectangular and has at least one cell. */
  predicate NonEmptyGrid<T>(g: seq<seq<T>>)
  {
    |g| > 0 && |g[0]| > 0 && IsGrid(g, |g|, |g[0]|)
  }

  /** The grid of shape h x w whose every cell is `v` (`np.full`). */
  function Uniform<T>(h: nat, w: nat, v: T): (g: seq<seq<T>>)
    ensures IsGrid(g, h, w)
    ensures forall i, j :: 0 <= i < h && 0 <= j < w ==> g[i][j] == v
  {
    seq(h, i => seq(w, j => v))
  }

  /** Index i + 1 taken modulo n: the row/column that `np.roll(x, -1)` brings to position i. */
  function Next(i: nat, n: nat): (k: nat)
    requires i < n
    ensures k < n
    ensures k == (i + 1) % n
  {
    if i + 1 == n then 0 else i + 1
  }

  /** Index i - 1 taken modulo n: the row/column that `np.roll(x, 1)` brings to position i. */
  function Prev(i: nat, n: nat): (k: nat)
    requires i < n
    ensures k < n
    ensures k == (i - 1) % n
  {
    if i == 0 then n - 1 else i - 1
  }

  /** Two grids of the same shape that agree on every cell are equal. */
  lemma GridExt<T>(a: seq<seq<T>>, b: seq<seq<T>>, h: nat, w: nat)
    requires IsGrid(a, h, w) && IsGrid(b, h, w)
    requires forall i, j :: 0 <= i < h && 0 <= j < w ==> a[i][j] == b[i][j]
    ensures a == b
  {
    forall i | 0 <= i < h ensures a[i] == b[i] {
      assert |a[i]| == |b[i]| == w;
    }
  }

  /** The current contents of a 2-D array, read as a grid value. */
  function Cells<T>(a: array2<T>): (g: seq<seq<T>>)
    reads a
    ensures IsGrid(g, a.Length0, a.Length1)
    ensures forall i, j :: 0 <= i < a.Length0 && 0 <= j < a.Length1 ==> g[i][j] == a[i, j]
  {
    seq(a.Length0, i requires 0 <= i < a.Length0 reads a =>
      seq(a.Length1, j requires 0 <= j < a.Length1 reads a => a[i, j]))
  }

  /** A freshly allocated array holding the grid `g` (numpy's `copy` / a new result array). */
  method FromGrid<T>(g: seq<seq<T>>, h: nat, w: nat) returns (a: array2<T>)
    requires IsGrid(g, h, w)
    ensures fresh(a)
    ensures a.Length0 == h && a.Length1 == w
    ensures Cells(a) == g
  {
    a := new T[h, w]((i, j) requires 0 <= i < h && 0 <= j < w => g[i][j]);
    GridExt(Cells(a), g, h, w);
  }

  /** Sum of a sequence of reals, added left to right. */
  function Sum(s: seq<real>): real
  {
    if s == [] then 0.0 else Sum(s[..|s| - 1]) + s[|s| - 1]
  }

  /** Arithmetic mean of a non-empty sequence (`np.mean`). */
  function Mean(s: seq<real>): (m: real)
    requires |s| > 0
    ensures m * (|s| as real) == Sum(s)
  {
    Sum(s) / (|s| as real)
  }

  /** Sum of all cells of a grid, row by row. */
  function GridSum(g: Grid): real
  {
    Sum(RowSums(g))
  }

  /** The sum of each row of a grid. */
  function RowSums(g: Grid): (r: seq<real>)
    ensures |r| == |g|
    ensures forall i :: 0 <= i < |g| ==> r[i] == Sum(g[i])
  {
    seq(|g|, i requires 0 <= i < |g| => Sum(g[i]))
  }

  /** Mean of all cells of a non-empty rectangular grid (`np.mean` over a 2-D array). */
  function GridMean(g: Grid): (m: real)
    requires NonEmptyGrid(g)
    ensures m * ((|g| * |g[0]|) as real) == GridSum(g)
  {
    GridSum(g) / ((|g| * |g[0]|) as real)
  }

  /** Pointwise sum of two sequences of the same length. */
  function Plus(a: seq<real>, b: seq<real>): (r: seq<real>)
    requires |a| == |b|
    ensures |r| == |a|
  {
    seq(|a|, k requires 0 <= k < |a| => a[k] + b[k])
  }

  /** A sequence scaled by a constant. */
  function Scale(c: real, a: seq<real>): (r: seq<real>)
    ensures |r| == |a|
  {
    seq(|a|, k requires 0 <= k < |a| => c * a[k])
  }

  lemma {:induction false} SumConcat(a: seq<real>, b: seq<real>)
    ensures Sum(a + b) == Sum(a) + Sum(b)
  {
    if b != [] {
      assert (a + b)[..|a + b| - 1] == a + b[..|b| - 1];
      SumConcat(a, b[..|b| - 1]);
    } else {
      assert a + b == a;
    }
  }

  lemma {:induction false} SumPlus(a: seq<real>, b: seq<real>)
    requires |a| == |b|
    ensures Sum(Plus(a, b)) == Sum(a) + Sum(b)
  {
    if a != [] {
      var n := |a| - 1;
      assert Plus(a, b)[..n] == Plus(a[..n], b[..n]);
      SumPlus(a[..n], b[..n]);
    }
  }

  lemma {:induction false} SumScale(c: real, a: seq<real>)
    ensures Sum(Scale(c, a)) == c * Sum(a)
  {
    if a != [] {
      var n := |a| - 1;
      forall k | 0 <= k < n ensures Scale(c, a)[..n][k] == Scale(c, a[..n])[k] {
        assert a[..n][k] == a[k];
      }
      assert Scale(c, a)[..n] == Scale(c, a[..n]);
      SumScale(c, a[..n]);
    }
  }

  /** Scaling a sequence whose total is zero keeps the total zero. */
  lemma SumScaleOfZero(c: real, a: seq<real>)
    requires Sum(a) == 0.0
    ensures Sum(Scale(c, a)) == 0.0
  {
    SumScale(c, a);
  }

  /** Rotating a sequence by one place, either way, keeps its sum. */
  lemma SumRotations(s: seq<real>)
    requires |s| > 0
    ensures Sum(seq(|s|, k requires 0 <= k < |s| => s[Next(k, |s|)])) == Sum(s)
    ensures Sum(seq(|s|, k requires 0 <= k < |s| => s[Prev(k, |s|)])) == Sum(s)
  {
    var n := |s|;
    assert seq(n, k requires 0 <= k < n => s[Next(k, n)]) == s[1..] + s[..1];
    assert seq(n, k requires 0 <= k < n => s[Prev(k, n)]) == s[n - 1..] + s[..n - 1];
    SumConcat(s[1..], s[..1]);
    SumConcat(s[..1], s[1..]);
    assert s[..1] + s[1..] == s;
    SumConcat(s[n - 1..], s[..n - 1]);
    SumConcat(s[..n - 1], s[n - 1..]);
    assert s[..n - 1] + s[n - 1..] == s;
  }

  /** The sum of a constant sequence. */
  lemma {:induction false} SumConstant(s: seq<real>, c: real)
    requires forall k :: 0 <= k < |s| ==> s[k] == c
    ensures Sum(s) == (|s| as real) * c
  {
    if s != [] {
      SumConstant(s[..|s| - 1], c);
    }
  }

  /** Each element of a sequence bounded by [lo, hi] keeps its sum within n*lo .. n*hi. */
  lemma {:induction false} SumBounds(s: seq<real>, lo: real, hi: real)
    requires forall k :: 0 <= k < |s| ==> lo <= s[k] <= hi
    ensures (|s| as real) * lo <= Sum(s) <= (|s| as real) * hi
  {
    if s != [] {
      SumBounds(s[..|s| - 1], lo, hi);
    }
  }
}
