/**
 * The sensor: a per-cell Schmitt-trigger LOW label, a leaky LOW-occupancy
 * integrator, the four-neighbour label mismatch, the fraction of LOW cells
 * and a slow EMA of the mean voltage's offset from a healthy reference.
 */
module Sensor {
  import opened Wrappers
  import opened Grids
  import opened MathUtils

  datatype RecorderConfig = RecorderConfig(lowEnter: real, lowExit: real, tauLow: real, mismatchThreshold: real)

  /** Time constant (s) of the global-offset EMA: its coefficient is dt / 600. */
  const OffsetTau: real := 600.0

  /**
   * The next LOW label of one cell: entering (V <= enter) wins, otherwise
   * leaving (V >= exit) clears the label, otherwise the old label is kept.
   */
  function NextBand(v: real, prev: bool, enter: real, exit: real): (low: bool)
    ensures low <==> v <= enter || (prev && v < exit)
    ensures enter < v < exit ==> low == prev
  {
    if v <= enter then true else if v >= exit then false else prev
  }

  /** `update_bands` on the whole grid. */
  function Bands(v: Grid, prev: BoolGrid, cfg: RecorderConfig, h: nat, w: nat): (r: BoolGrid)
    requires IsGrid(v, h, w) && IsGrid(prev, h, w)
    ensures IsGrid(r, h, w)
    ensures forall i, j :: 0 <= i < h && 0 <= j < w ==> r[i][j] == NextBand(v[i][j], prev[i][j], cfg.lowEnter, cfg.lowExit)
  {
    seq(h, i requires 0 <= i < h => seq(w, j requires 0 <= j < w =>
      NextBand(v[i][j], prev[i][j], cfg.lowEnter, cfg.lowExit)))
  }

  /** Every cell of a grid lies in [0, 1]. */
  predicate InUnit(g: Grid)
  {
    forall i, j :: 0 <= i < |g| && 0 <= j < |g[i]| ==> 0.0 <= g[i][j] <= 1.0
  }

  /** One leaky-integrator step of a cell's occupancy towards its LOW indicator (1 if LOW, else 0). */
  function LeakyStep(occ: real, low: bool, alpha: real): (r: real)
    requires 0.0 <= alpha <= 1.0
    ensures 0.0 <= occ <= 1.0 ==> 0.0 <= r <= 1.0
    ensures low && occ <= 1.0 ==> occ <= r
    ensures !low && occ >= 0.0 ==> r <= occ
  {
    ConvexStep(occ, Indicator(low), alpha);
    Blend(occ, Indicator(low), alpha)
  }

  /** `update_low_occupancy` on the whole grid: occupancy stays in [0, 1] when it starts there. */
  function Occupancy(occ: Grid, low: BoolGrid, alpha: real, h: nat, w: nat): (r: Grid)
    requires IsGrid(occ, h, w) && IsGrid(low, h, w) && 0.0 <= alpha <= 1.0
    ensures IsGrid(r, h, w)
    ensures forall i, j :: 0 <= i < h && 0 <= j < w ==> r[i][j] == LeakyStep(occ[i][j], low[i][j], alpha)
    ensures InUnit(occ) ==> InUnit(r)
  {
    seq(h, i requires 0 <= i < h => seq(w, j requires 0 <= j < w => LeakyStep(occ[i][j], low[i][j], alpha)))
  }

  function Indicator(b: bool): real
  {
    if b then 1.0 else 0.0
  }

  /** How many of the four periodic neighbours of (i, j) carry a label different from (i, j)'s. */
  function DifferingNeighbours(ls: BoolGrid, h: nat, w: nat, i: nat, j: nat): (n: nat)
    requires IsGrid(ls, h, w) && i < h && j < w
    ensures n <= 4
  {
    var me := ls[i][j];
    (if ls[Next(i, h)][j] != me then 1 else 0) + (if ls[Prev(i, h)][j] != me then 1 else 0)
    + (if ls[i][Prev(j, w)] != me then 1 else 0) + (if ls[i][Next(j, w)] != me then 1 else 0)
  }

  /**
   * Mismatch of one cell: the mean LOW-ness m of its four periodic
   * neighbours, or 1 - m when the cell itself is LOW. It is exactly the
   * fraction of the four neighbours that disagree with the cell.
   */
  function MismatchAt(ls: BoolGrid, h: nat, w: nat, i: nat, j: nat): (r: real)
    requires IsGrid(ls, h, w) && i < h && j < w
    ensures 4.0 * r == DifferingNeighbours(ls, h, w, i, j) as real
    ensures r in {0.0, 0.25, 0.5, 0.75, 1.0}
  {
    var neighMean := (Indicator(ls[Next(i, h)][j]) + Indicator(ls[Prev(i, h)][j])
      + Indicator(ls[i][Prev(j, w)]) + Indicator(ls[i][Next(j, w)])) / 4.0;
    if ls[i][j] then 1.0 - neighMean else neighMean
  }

  /** `neighbor_mismatch` on the whole grid. */
  function MismatchGrid(ls: BoolGrid, h: nat, w: nat): (r: Grid)
    requires IsGrid(ls, h, w)
    ensures IsGrid(r, h, w) && InUnit(r)
    ensures forall i, j :: 0 <= i < h && 0 <= j < w ==> r[i][j] == MismatchAt(ls, h, w, i, j)
  {
    seq(h, i requires 0 <= i < h => seq(w, j requires 0 <= j < w => MismatchAt(ls, h, w, i, j)))
  }

  /** When every cell carries the same label, no cell mismatches its neighbours. */
  lemma UniformLabelsAgree(h: nat, w: nat, b: bool)
    ensures MismatchGrid(Uniform(h, w, b), h, w) == Uniform(h, w, 0.0)
  {
    var ls := Uniform(h, w, b);
    forall i, j | 0 <= i < h && 0 <= j < w ensures MismatchGrid(ls, h, w)[i][j] == 0.0 {
      assert DifferingNeighbours(ls, h, w, i, j) == 0;
    }
    GridExt(MismatchGrid(ls, h, w), Uniform(h, w, 0.0), h, w);
  }

  /** Number of true cells in a row. */
  function CountRow(row: seq<bool>): (n: nat)
    ensures n <= |row|
  {
    if row == [] then 0 else CountRow(row[..|row| - 1]) + (if row[|row| - 1] then 1 else 0)
  }

  /** Number of LOW cells in a grid. */
  function CountLow(ls: BoolGrid): nat
  {
    if ls == [] then 0 else CountLow(ls[..|ls| - 1]) + CountRow(ls[|ls| - 1])
  }

  lemma {:induction false} CountRowExtremes(row: seq<bool>)
    ensures CountRow(row) == 0 <==> forall j :: 0 <= j < |row| ==> !row[j]
    ensures CountRow(row) == |row| <==> forall j :: 0 <= j < |row| ==> row[j]
  {
    if row != [] {
      var n := |row| - 1;
      CountRowExtremes(row[..n]);
      assert forall j :: 0 <= j < n ==> row[..n][j] == row[j];
    }
  }

  /** No cell of the h x w grid is LOW. */
  predicate NoneLow(ls: BoolGrid, h: nat, w: nat)
    requires IsGrid(ls, h, w)
  {
    forall i, j :: 0 <= i < h && 0 <= j < w ==> !ls[i][j]
  }

  /** Every cell of the h x w grid is LOW. */
  predicate AllLow(ls: BoolGrid, h: nat, w: nat)
    requires IsGrid(ls, h, w)
  {
    forall i, j :: 0 <= i < h && 0 <= j < w ==> ls[i][j]
  }

  /** The LOW count of an h x w grid is at most h * w; it is 0 iff no cell is LOW and h * w iff all are. */
  lemma {:induction false} CountLowExtremes(ls: BoolGrid, h: nat, w: nat)
    requires IsGrid(ls, h, w)
    ensures CountLow(ls) <= h * w
    ensures CountLow(ls) == 0 <==> NoneLow(ls, h, w)
    ensures CountLow(ls) == h * w <==> AllLow(ls, h, w)
  {
    if h > 0 {
      var n := h - 1;
      var pre, last := ls[..n], ls[n];
      CountLowExtremes(pre, n, w);
      CountRowExtremes(last);
      MulSucc(n, w);
      assert CountLow(ls) == CountLow(pre) + CountRow(last);
      assert forall i :: 0 <= i < n ==> pre[i] == ls[i];
      assert NoneLow(ls, h, w) <==> NoneLow(pre, n, w) && (forall j :: 0 <= j < w ==> !last[j]);
      assert AllLow(ls, h, w) <==> AllLow(pre, n, w) && (forall j :: 0 <= j < w ==> last[j]);
    }
  }

  /** `domain_low_fraction`: the fraction of LOW cells, 0 iff none is LOW and 1 iff all are. */
  function LowFraction(ls: BoolGrid, h: nat, w: nat): (f: real)
    requires IsGrid(ls, h, w) && h > 0 && w > 0
    ensures 0.0 <= f <= 1.0
    ensures f * ((h * w) as real) == CountLow(ls) as real
    ensures f == 0.0 <==> NoneLow(ls, h, w)
    ensures f == 1.0 <==> AllLow(ls, h, w)
  {
    var c, n := CountLow(ls), h * w;
    CountLowExtremes(ls, h, w);
    ProductPositive(h, w);
    RatioFacts(c as real, n as real);
    (c as real) / (n as real)
  }

  lemma MulSucc(n: nat, w: nat)
    ensures (n + 1) * w == n * w + w
  {
  }

  lemma ProductPositive(h: nat, w: nat)
    requires h > 0 && w > 0
    ensures h * w > 0
  {
  }

  /** The sensor's state: LOW labels, LOW occupancy, and the global-offset EMA with its reference. */
  class Recorder {
    const cfg: RecorderConfig
    const h: nat
    const w: nat
    const dt: real
    const lowAlpha: real
    const emaAlpha: real
    var lowState: array2<bool>
    var lowOcc: array2<real>
    var emaGlobalOffset: real
    var healthyRef: Option<real>

    /**
     * The arrays have the grid's shape, both EMA coefficients lie in
     * [1e-6, 1], every occupancy lies in [0, 1], and until a reference is
     * set the offset EMA is still at its initial 0.
     */
    ghost predicate Valid()
      reads this, lowOcc
    {
      && lowState.Length0 == h && lowState.Length1 == w
      && lowOcc.Length0 == h && lowOcc.Length1 == w
      && AlphaMin <= lowAlpha <= 1.0 && AlphaMin <= emaAlpha <= 1.0
      && InUnit(Cells(lowOcc))
      && (healthyRef.None? ==> emaGlobalOffset == 0.0)
    }

    constructor (cfg: RecorderConfig, grid: (nat, nat), dt: real)
      ensures Valid() && this.cfg == cfg && (h, w) == grid && this.dt == dt
      ensures lowAlpha == Clip(dt / (if cfg.tauLow > AlphaMin then cfg.tauLow else AlphaMin), AlphaMin, 1.0)
      ensures emaAlpha == Clip(dt / OffsetTau, AlphaMin, 1.0)
      ensures Cells(lowState) == Uniform(h, w, false) && Cells(lowOcc) == Uniform(h, w, 0.0)
      ensures emaGlobalOffset == 0.0 && healthyRef == None
    {
      this.cfg := cfg;
      h, w := grid.0, grid.1;
      this.dt := dt;
      lowAlpha := Clip(dt / (if cfg.tauLow > AlphaMin then cfg.tauLow else AlphaMin), AlphaMin, 1.0);
      emaAlpha := Clip(dt / OffsetTau, AlphaMin, 1.0);
      emaGlobalOffset := 0.0;
      healthyRef := None;
      new;
      lowState := FromGrid(Uniform(grid.0, grid.1, false), grid.0, grid.1);
      lowOcc := FromGrid(Uniform(grid.0, grid.1, 0.0), grid.0, grid.1);
    }

    /** `update_bands`: relabels every cell; nothing but the LOW labels changes. */
    method UpdateBands(v: Grid)
      requires Valid() && IsGrid(v, h, w)
      modifies this`lowState
      ensures Valid() && fresh(lowState)
      ensures Cells(lowState) == Bands(v, old(Cells(lowState)), cfg, h, w)
    {
      lowState := FromGrid(Bands(v, Cells(lowState), cfg, h, w), h, w);
    }

    /** `update_low_occupancy`: leaky-integrates the LOW labels; nothing but the occupancy changes. */
    method UpdateLowOccupancy()
      requires Valid()
      modifies this`lowOcc
      ensures Valid() && fresh(lowOcc)
      ensures Cells(lowOcc) == Occupancy(old(Cells(lowOcc)), Cells(lowState), lowAlpha, h, w)
    {
      lowOcc := FromGrid(Occupancy(Cells(lowOcc), Cells(lowState), lowAlpha, h, w), h, w);
    }

    /** `neighbor_mismatch`: per cell, the fraction of its four neighbours whose label differs. `v` is not read. */
    function NeighborMismatch(v: Grid): (m: Grid)
      reads this, lowState, lowOcc
      requires Valid()
      ensures IsGrid(m, h, w) && InUnit(m)
      ensures forall i, j :: 0 <= i < h && 0 <= j < w ==>
        4.0 * m[i][j] == DifferingNeighbours(Cells(lowState), h, w, i, j) as real
    {
      MismatchGrid(Cells(lowState), h, w)
    }

    /** `domain_low_fraction`: the fraction of cells currently LOW. */
    function DomainLowFraction(): (f: real)
      reads this, lowState, lowOcc
      requires Valid() && h > 0 && w > 0
      ensures f == LowFraction(Cells(lowState), h, w)
      ensures 0.0 <= f <= 1.0
    {
      LowFraction(Cells(lowState), h, w)
    }

    /** `set_healthy_ref`. */
    method SetHealthyRef(vRef: real)
      requires Valid()
      modifies this`healthyRef
      ensures Valid() && healthyRef == Some(vRef)
    {
      healthyRef := Some(vRef);
    }

    /**
     * `global_v_offset`: the EMA of mean(V) - reference. Without a reference
     * the current mean becomes the reference, so the first such call
     * returns 0.
     */
    method GlobalVOffset(v: Grid) returns (r: real)
      requires Valid() && NonEmptyGrid(v)
      modifies this`healthyRef, this`emaGlobalOffset
      ensures Valid()
      ensures healthyRef == if old(healthyRef).None? then Some(GridMean(v)) else old(healthyRef)
      ensures r == emaGlobalOffset == EmaUpdate(old(emaGlobalOffset), GridMean(v) - healthyRef.value, emaAlpha)
      ensures old(healthyRef).None? ==> r == 0.0
    {
      if healthyRef.None? {
        healthyRef := Some(GridMean(v));
      }
      var delta := GridMean(v) - healthyRef.value;
      emaGlobalOffset := EmaUpdate(emaGlobalOffset, delta, emaAlpha);
      r := emaGlobalOffset;
    }
  }
}
