/**
 * The energy store of the tissue: production towards 1, decay, diffusion
 * through the periodic Laplacian and a cost proportional to the magnitude
 * of actuation, advanced by explicit Euler steps and clamped at zero.
 */
module EnergyField {
  import opened Wrappers
  import opened Grids
  import opened MathUtils

  datatype EnergyConfig = EnergyConfig(
    grid: (nat, nat), E0: real, kOxphos: real, alphaActuationCost: real,
    betaTntFlux: real, gammaDecay: real, Emin: real)

  function Abs(x: real): (r: real)
    ensures r >= 0.0 && (r == x || r == -x)
  {
    if x < 0.0 then -x else x
  }

  /** The shapes a step needs: E is h x w and so is the actuation field when present. */
  predicate StepShapes(cfg: EnergyConfig, g: Grid, u: Option<Grid>)
  {
    IsGrid(g, cfg.grid.0, cfg.grid.1) && (u.Some? ==> IsGrid(u.value, cfg.grid.0, cfg.grid.1))
  }

  /** Actuation cost at a cell: alpha * |u|, or 0 when no actuation field is given. */
  function CostAt(cfg: EnergyConfig, u: Option<Grid>, i: nat, j: nat): (c: real)
    requires i < cfg.grid.0 && j < cfg.grid.1
    requires u.Some? ==> IsGrid(u.value, cfg.grid.0, cfg.grid.1)
    ensures u.None? ==> c == 0.0
  {
    if u.Some? then cfg.alphaActuationCost * Abs(u.value[i][j]) else 0.0
  }

  /** Diffusive flux at a cell: beta * lap(E), where the Laplacian is skipped (taken as 0) when beta is 0. */
  function FluxAt(cfg: EnergyConfig, g: Grid, i: nat, j: nat): (fl: real)
    requires IsGrid(g, cfg.grid.0, cfg.grid.1) && i < cfg.grid.0 && j < cfg.grid.1
    ensures cfg.betaTntFlux == 0.0 ==> fl == 0.0
  {
    var lap := if cfg.betaTntFlux != 0.0 then LaplacianAt(g, cfg.grid.0, cfg.grid.1, i, j) else 0.0;
    cfg.betaTntFlux * lap
  }

  /** A cell before clamping: E + dt * (k * (1 - E) - gamma * E - cost + flux). */
  function RawStepAt(cfg: EnergyConfig, dt: real, g: Grid, u: Option<Grid>, i: nat, j: nat): (e: real)
    requires StepShapes(cfg, g, u) && i < cfg.grid.0 && j < cfg.grid.1
    ensures dt == 0.0 ==> e == g[i][j]
  {
    var e := g[i][j];
    e + dt * (cfg.kOxphos * (1.0 - e) - cfg.gammaDecay * e - CostAt(cfg, u, i, j) + FluxAt(cfg, g, i, j))
  }

  /** Every cell of a grid is non-negative. */
  predicate NonNegative(g: Grid)
  {
    forall i, j :: 0 <= i < |g| && 0 <= j < |g[i]| ==> g[i][j] >= 0.0
  }

  /**
   * `Energy.step` on the whole field: the Euler update of every cell, then
   * `np.maximum(E, 0)`. The clamp only lifts negative cells to zero.
   */
  function EnergyStep(cfg: EnergyConfig, dt: real, g: Grid, u: Option<Grid>): (r: Grid)
    requires StepShapes(cfg, g, u)
    ensures IsGrid(r, cfg.grid.0, cfg.grid.1)
    ensures NonNegative(r)
    ensures forall i, j :: 0 <= i < cfg.grid.0 && 0 <= j < cfg.grid.1 ==>
      && r[i][j] >= RawStepAt(cfg, dt, g, u, i, j)
      && (RawStepAt(cfg, dt, g, u, i, j) >= 0.0 ==> r[i][j] == RawStepAt(cfg, dt, g, u, i, j))
      && (RawStepAt(cfg, dt, g, u, i, j) < 0.0 ==> r[i][j] == 0.0)
  {
    var h, w := cfg.grid.0, cfg.grid.1;
    seq(h, i requires 0 <= i < h => seq(w, j requires 0 <= j < w =>
      var raw := RawStepAt(cfg, dt, g, u, i, j);
      if raw > 0.0 then raw else 0.0))
  }

  /** The cost depends on |u| only: fields of equal magnitude cell by cell give the same step. */
  lemma CostIgnoresSign(cfg: EnergyConfig, dt: real, g: Grid, u1: Grid, u2: Grid)
    requires StepShapes(cfg, g, Some(u1)) && StepShapes(cfg, g, Some(u2))
    requires forall i, j :: 0 <= i < cfg.grid.0 && 0 <= j < cfg.grid.1 ==> Abs(u1[i][j]) == Abs(u2[i][j])
    ensures EnergyStep(cfg, dt, g, Some(u1)) == EnergyStep(cfg, dt, g, Some(u2))
  {
    var h, w := cfg.grid.0, cfg.grid.1;
    var a, b := EnergyStep(cfg, dt, g, Some(u1)), EnergyStep(cfg, dt, g, Some(u2));
    forall i, j | 0 <= i < h && 0 <= j < w ensures a[i][j] == b[i][j] {
      RawStepIgnoresSign(cfg, dt, g, u1, u2, i, j);
    }
    GridExt(a, b, h, w);
  }

  lemma RawStepIgnoresSign(cfg: EnergyConfig, dt: real, g: Grid, u1: Grid, u2: Grid, i: nat, j: nat)
    requires StepShapes(cfg, g, Some(u1)) && StepShapes(cfg, g, Some(u2))
    requires i < cfg.grid.0 && j < cfg.grid.1 && Abs(u1[i][j]) == Abs(u2[i][j])
    ensures RawStepAt(cfg, dt, g, Some(u1), i, j) == RawStepAt(cfg, dt, g, Some(u2), i, j)
  {
    assert CostAt(cfg, Some(u1), i, j) == CostAt(cfg, Some(u2), i, j);
  }

  /** An absent actuation field costs nothing: it acts exactly like an all-zero field. */
  lemma AbsentInputIsZeroInput(cfg: EnergyConfig, dt: real, g: Grid)
    requires IsGrid(g, cfg.grid.0, cfg.grid.1)
    ensures StepShapes(cfg, g, Some(Uniform(cfg.grid.0, cfg.grid.1, 0.0)))
    ensures EnergyStep(cfg, dt, g, None) == EnergyStep(cfg, dt, g, Some(Uniform(cfg.grid.0, cfg.grid.1, 0.0)))
  {
    var h, w := cfg.grid.0, cfg.grid.1;
    var z := Uniform(h, w, 0.0);
    var a, b := EnergyStep(cfg, dt, g, None), EnergyStep(cfg, dt, g, Some(z));
    forall i, j | 0 <= i < h && 0 <= j < w ensures a[i][j] == b[i][j] {
      assert CostAt(cfg, Some(z), i, j) == cfg.alphaActuationCost * 0.0;
      assert RawStepAt(cfg, dt, g, None, i, j) == RawStepAt(cfg, dt, g, Some(z), i, j);
    }
    GridExt(a, b, h, w);
  }

  /**
   * With beta = 0 there is no diffusion: a cell's next value depends only on
   * its own energy and its own actuation, never on its neighbours.
   */
  lemma NoFluxIsLocal(cfg: EnergyConfig, dt: real, g1: Grid, g2: Grid, u: Option<Grid>, i: nat, j: nat)
    requires cfg.betaTntFlux == 0.0
    requires StepShapes(cfg, g1, u) && StepShapes(cfg, g2, u)
    requires i < cfg.grid.0 && j < cfg.grid.1 && g1[i][j] == g2[i][j]
    ensures EnergyStep(cfg, dt, g1, u)[i][j] == EnergyStep(cfg, dt, g2, u)[i][j]
  {
    assert FluxAt(cfg, g1, i, j) == 0.0 == FluxAt(cfg, g2, i, j);
    assert RawStepAt(cfg, dt, g1, u, i, j) == RawStepAt(cfg, dt, g2, u, i, j);
  }

  /** The tissue's energy field E, owned and advanced by this object. */
  class Energy {
    const cfg: EnergyConfig
    const h: nat
    const w: nat
    var E: array2<real>

    ghost predicate Valid()
      reads this
    {
      cfg.grid == (h, w) && E.Length0 == h && E.Length1 == w
    }

    /** A new store of the configured shape, every cell at E0. */
    constructor (cfg: EnergyConfig)
      ensures Valid() && this.cfg == cfg && fresh(E)
      ensures Cells(E) == Uniform(cfg.grid.0, cfg.grid.1, cfg.E0)
    {
      this.cfg := cfg;
      h, w := cfg.grid.0, cfg.grid.1;
      new;
      E := FromGrid(Uniform(h, w, cfg.E0), h, w);
    }

    /** `set_initial` with a scalar: fills every cell of E in place. */
    method SetInitialScalar(e0: real)
      requires Valid()
      modifies E
      ensures Valid()
      ensures Cells(E) == Uniform(h, w, e0)
    {
      forall i, j | 0 <= i < h && 0 <= j < w {
        E[i, j] := e0;
      }
      GridExt(Cells(E), Uniform(h, w, e0), h, w);
    }

    /** `set_initial` with an array of the store's shape: E becomes a copy of it. */
    method SetInitialArray(e0: array2<real>)
      requires Valid()
      requires e0.Length0 == h && e0.Length1 == w
      modifies this
      ensures Valid() && fresh(E)
      ensures Cells(E) == Cells(e0)
    {
      E := FromGrid(Cells(e0), h, w);
    }

    /**
     * `step`: E is replaced by the clamped Euler update of its old value, so
     * every cell is non-negative afterwards whatever the actuation was.
     * `uTntEv` is accepted and has no effect.
     */
    method Step(dt: real, u: Option<Grid>, uTntEv: real)
      requires Valid()
      requires u.Some? ==> IsGrid(u.value, h, w)
      modifies this
      ensures Valid() && fresh(E)
      ensures Cells(E) == EnergyStep(cfg, dt, old(Cells(E)), u)
      ensures NonNegative(Cells(E))
    {
      E := FromGrid(EnergyStep(cfg, dt, Cells(E), u), h, w);
    }
  }
}
