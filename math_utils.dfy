/**
 * Leaf numeric utilities: the periodic five-point Laplacian, the
 * exponential moving average, and the guard/window/clip structure of the
 * short-lag coupling estimate.
 */
module MathUtils {
  import opened Grids

  /** `np.clip(x, lo, hi)` for lo <= hi. */
  function Clip(x: real, lo: real, hi: real): (r: real)
    requires lo <= hi
    ensures lo <= r <= hi
    ensures lo <= x <= hi ==> r == x
    ensures x < lo ==> r == lo
    ensures x > hi ==> r == hi
  {
    if x < lo then lo else if x > hi then hi else x
  }

  /** The smallest EMA coefficient `ema_update` accepts (1e-6). */
  const AlphaMin: real := 0.000001

  /** Laplacian at cell (i, j): the four neighbours, read with periodic wrap-around, minus four times the cell. */
  function LaplacianAt(g: Grid, h: nat, w: nat, i: nat, j: nat): real
    requires IsGrid(g, h, w) && i < h && j < w
  {
    g[Next(i, h)][j] + g[Prev(i, h)][j] + g[i][Prev(j, w)] + g[i][Next(j, w)] - 4.0 * g[i][j]
  }

  /** `laplacian_2d`: the discrete Laplacian of the whole field, periodic in both axes. */
  function Laplacian(g: Grid, h: nat, w: nat): (r: Grid)
    requires IsGrid(g, h, w)
    ensures IsGrid(r, h, w)
    ensures forall i, j :: 0 <= i < h && 0 <= j < w ==> r[i][j] == LaplacianAt(g, h, w, i, j)
  {
    seq(h, i requires 0 <= i < h => seq(w, j requires 0 <= j < w => LaplacianAt(g, h, w, i, j)))
  }

  /** A constant field has zero Laplacian at every cell. */
  lemma LaplacianOfConstant(h: nat, w: nat, c: real)
    ensures Laplacian(Uniform(h, w, c), h, w) == Uniform(h, w, 0.0)
  {
    GridExt(Laplacian(Uniform(h, w, c), h, w), Uniform(h, w, 0.0), h, w);
  }

  /** One row of the Laplacian sums to (row above) + (row below) - 2 * (this row). */
  lemma LaplacianRowSum(g: Grid, h: nat, w: nat, i: nat)
    requires IsGrid(g, h, w) && i < h && w > 0
    ensures Sum(Laplacian(g, h, w)[i]) == Sum(g[Next(i, h)]) + Sum(g[Prev(i, h)]) - 2.0 * Sum(g[i])
  {
    var row := g[i];
    var left := seq(w, j requires 0 <= j < w => row[Prev(j, w)]);
    var right := seq(w, j requires 0 <= j < w => row[Next(j, w)]);
    var combined := Plus(Plus(Plus(Plus(g[Next(i, h)], g[Prev(i, h)]), left), right), Scale(-4.0, row));
    assert Laplacian(g, h, w)[i] == combined;
    SumPlus(Plus(Plus(Plus(g[Next(i, h)], g[Prev(i, h)]), left), right), Scale(-4.0, row));
    SumPlus(Plus(Plus(g[Next(i, h)], g[Prev(i, h)]), left), right);
    SumPlus(Plus(g[Next(i, h)], g[Prev(i, h)]), left);
    SumPlus(g[Next(i, h)], g[Prev(i, h)]);
    SumScale(-4.0, row);
    SumRotations(row);
  }

  /** With periodic wrap-around the Laplacian moves no mass: it sums to zero over the grid. */
  lemma LaplacianSumsToZero(g: Grid, h: nat, w: nat)
    requires IsGrid(g, h, w)
    ensures GridSum(Laplacian(g, h, w)) == 0.0
  {
    var lap := Laplacian(g, h, w);
    if h == 0 {
      assert RowSums(lap) == [];
    } else if w == 0 {
      forall i | 0 <= i < h ensures RowSums(lap)[i] == 0.0 {
        assert lap[i] == [];
      }
      SumConstant(RowSums(lap), 0.0);
    } else {
      var rs := RowSums(g);
      var up := seq(h, i requires 0 <= i < h => rs[Next(i, h)]);
      var down := seq(h, i requires 0 <= i < h => rs[Prev(i, h)]);
      forall i | 0 <= i < h ensures RowSums(lap)[i] == Plus(Plus(up, down), Scale(-2.0, rs))[i] {
        LaplacianRowSum(g, h, w, i);
      }
      assert RowSums(lap) == Plus(Plus(up, down), Scale(-2.0, rs));
      SumPlus(Plus(up, down), Scale(-2.0, rs));
      SumPlus(up, down);
      SumScale(-2.0, rs);
      SumRotations(rs);
    }
  }

  /** `ema_update`: one exponential-moving-average step with alpha clipped into [1e-6, 1]. */
  function EmaUpdate(prev: real, x: real, alpha: real): (r: real)
    ensures prev <= x ==> prev <= r <= x
    ensures x <= prev ==> x <= r <= prev
    ensures alpha >= 1.0 ==> r == x
  {
    var a := Clip(alpha, AlphaMin, 1.0);
    ConvexStep(prev, x, a);
    Blend(prev, x, a)
  }

  /** The convex combination `(1 - a) * prev + a * x` used by both the EMA and the leaky integrator. */
  function Blend(prev: real, x: real, a: real): real
  {
    (1.0 - a) * prev + a * x
  }

  /** Only the clipped coefficient matters: an alpha outside [1e-6, 1] acts as the nearer bound. */
  lemma EmaAlphaClipped(prev: real, x: real, alpha: real)
    ensures EmaUpdate(prev, x, alpha) == EmaUpdate(prev, x, Clip(alpha, AlphaMin, 1.0))
    ensures alpha <= AlphaMin ==> EmaUpdate(prev, x, alpha) == EmaUpdate(prev, x, AlphaMin)
  {
  }

  /** A convex combination of `prev` and `x` lies between the two. */
  lemma ConvexStep(prev: real, x: real, a: real)
    requires 0.0 <= a <= 1.0
    ensures prev <= x ==> prev <= Blend(prev, x, a) <= x
    ensures x <= prev ==> x <= Blend(prev, x, a) <= prev
  {
    if prev <= x {
      ProductNonNegative(a, x - prev);
      ProductNonNegative(1.0 - a, x - prev);
    } else {
      ProductNonNegative(a, prev - x);
      ProductNonNegative(1.0 - a, prev - x);
    }
  }

  lemma ProductNonNegative(u: real, v: real)
    requires u >= 0.0 && v >= 0.0
    ensures u * v >= 0.0
  {
  }

  /** `max(1, n)`: a step count that is never below one. */
  function AtLeastOne(n: int): (d: nat)
    ensures d >= 1 && d >= n
    ensures d == n || d == 1
  {
    if n > 1 then n else 1
  }

  /** A count c out of n > 0, as a fraction: in [0, 1], 0 iff c is 0, 1 iff c is n. */
  lemma RatioFacts(c: real, n: real)
    requires 0.0 <= c <= n && n > 0.0
    ensures 0.0 <= c / n <= 1.0 && (c / n) * n == c
    ensures c / n == 0.0 <==> c == 0.0
    ensures c / n == 1.0 <==> c == n
  {
  }

  /** The input of `estimate_coupling_shortlag`: a 3-D stack of T frames, or anything else. */
  datatype CouplingWindow = NotStack3D | Frames(frames: seq<Grid>)

  /** Longest window of frames the estimate averages over. */
  const CouplingMaxFrames: nat := 50

  /** The last min(n, |s|) elements of `s` (`s[-n:]`). */
  function LastN<T>(s: seq<T>, n: nat): (r: seq<T>)
    ensures |r| == if |s| < n then |s| else n
    ensures forall k :: 0 <= k < |r| ==> r[k] == s[|s| - |r| + k]
  {
    if |s| <= n then s else s[|s| - n..]
  }

  /** True when the guard of `estimate_coupling_shortlag` lets the window through. */
  predicate CouplingDefined(window: CouplingWindow)
  {
    window.Frames? && |window.frames| >= 4
  }

  /**
   * The coupling estimate as a value: 0 unless the window holds at least four
   * frames; otherwise the per-frame correlations `corr` of the last
   * min(50, T) frames are averaged, mapped from [-1, 1] to [0, 1] and clipped.
   */
  function CouplingEstimate(window: CouplingWindow, corr: Grid -> real): (r: real)
    ensures 0.0 <= r <= 1.0
    ensures !CouplingDefined(window) ==> r == 0.0
  {
    if !CouplingDefined(window) then 0.0
    else
      MappedMean(Correlations(LastN(window.frames, CouplingMaxFrames), corr))
  }

  /** The mean correlation mapped from [-1, 1] onto [0, 1] and clipped. */
  function MappedMean(corrs: seq<real>): (r: real)
    requires |corrs| > 0
    ensures 0.0 <= r <= 1.0
  {
    Clip((Mean(corrs) + 1.0) / 2.0, 0.0, 1.0)
  }

  /** The per-frame correlations of a run of frames. */
  function Correlations(frames: seq<Grid>, corr: Grid -> real): (r: seq<real>)
    ensures |r| == |frames|
    ensures forall k :: 0 <= k < |r| ==> r[k] == corr(frames[k])
  {
    seq(|frames|, k requires 0 <= k < |frames| => corr(frames[k]))
  }

  /** Collecting one more frame appends its correlation. */
  lemma CorrelationsSnoc(frames: seq<Grid>, k: nat, corr: Grid -> real)
    requires k < |frames|
    ensures Correlations(frames[..k + 1], corr) == Correlations(frames[..k], corr) + [corr(frames[k])]
  {
    assert Correlations(frames[..k + 1], corr)[k] == corr(frames[k]);
  }

  /** `estimate_coupling_shortlag`: loops over the recent frames collecting correlations. */
  method EstimateCouplingShortlag(window: CouplingWindow, corr: Grid -> real) returns (r: real)
    ensures r == CouplingEstimate(window, corr)
    ensures 0.0 <= r <= 1.0
  {
    if !window.Frames? || |window.frames| < 4 {
      return 0.0;
    }
    var t := if |window.frames| < CouplingMaxFrames then |window.frames| else CouplingMaxFrames;
    var recent := window.frames[|window.frames| - t..];
    var corrs: seq<real> := [];
    for k := 0 to |recent|
      invariant corrs == Correlations(recent[..k], corr)
    {
      CorrelationsSnoc(recent, k, corr);
      corrs := corrs + [corr(recent[k])];
    }
    assert recent[..|recent|] == recent == LastN(window.frames, CouplingMaxFrames);
    r := MappedMean(corrs);
  }

  /** Frames older than the last 50 never influence the estimate. */
  lemma CouplingIgnoresOldFrames(older1: seq<Grid>, older2: seq<Grid>, recent: seq<Grid>, corr: Grid -> real)
    requires |recent| >= CouplingMaxFrames
    ensures CouplingEstimate(Frames(older1 + recent), corr) == CouplingEstimate(Frames(older2 + recent), corr)
  {
    assert LastN(older1 + recent, CouplingMaxFrames) == LastN(recent, CouplingMaxFrames);
    assert LastN(older2 + recent, CouplingMaxFrames) == LastN(recent, CouplingMaxFrames);
  }
}
