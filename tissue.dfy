/**
 * The voltage field of the tissue: an RC grid with a leak towards EL,
 * diffusive coupling through the periodic Laplacian, an external input and
 * additive noise, advanced by explicit Euler steps.
 */
module TissueField {
  import opened Wrappers
  import opened Grids
  import opened MathUtils

  /**
   * Tissue parameters. `boundary` is carried as configured but never read:
   * the Laplacian is always periodic.
   */
  datatype TissueConfig = TissueConfig(
    grid: (nat, nat), dt: real, EL: real, gL: real, couplingD: real, noiseRms: real, boundary: string)

  /** Membrane potential (mV) of every cell of a new tissue: a depolarised state. */
  const InitialV: real := -18.0

  /** The external input at a cell: 0 when no input field is given. */
  function InputAt(u: Option<Grid>, h: nat, w: nat, i: nat, j: nat): real
    requires i < h && j < w
    requires u.Some? ==> IsGrid(u.value, h, w)
  {
    if u.Some? then u.value[i][j] else 0.0
  }

  /** The noise added at a cell: the supplied Gaussian draw when noise_rms > 0, exactly 0 otherwise. */
  function NoiseAt(noiseRms: real, noise: Grid, h: nat, w: nat, i: nat, j: nat): real
    requires i < h && j < w
    requires noiseRms > 0.0 ==> IsGrid(noise, h, w)
  {
    if noiseRms > 0.0 then noise[i][j] else 0.0
  }

  /** The shapes `TissueStep` needs: V is h x w, and so are the input and (when drawn) the noise. */
  predicate StepShapes(cfg: TissueConfig, g: Grid, u: Option<Grid>, noise: Grid)
  {
    && IsGrid(g, cfg.grid.0, cfg.grid.1)
    && (u.Some? ==> IsGrid(u.value, cfg.grid.0, cfg.grid.1))
    && (cfg.noiseRms > 0.0 ==> IsGrid(noise, cfg.grid.0, cfg.grid.1))
  }

  /** One explicit-Euler step of one cell. */
  function StepCell(cfg: TissueConfig, v: real, lap: real, input: real, noise: real): real
  {
    v + cfg.dt * (-cfg.gL * (v - cfg.EL) + cfg.couplingD * lap + input) + noise
  }

  /**
   * `Tissue.step` on the whole field: every cell becomes
   * V + dt * (-gL * (V - EL) + D * lap(V) + u) + noise, with `noise` the
   * Gaussian draw the source takes from its generator.
   */
  function TissueStep(cfg: TissueConfig, g: Grid, u: Option<Grid>, noise: Grid): (r: Grid)
    requires StepShapes(cfg, g, u, noise)
    ensures IsGrid(r, cfg.grid.0, cfg.grid.1)
    ensures forall i, j :: 0 <= i < cfg.grid.0 && 0 <= j < cfg.grid.1 ==> r[i][j] == StepAt(cfg, g, u, noise, i, j)
  {
    var h, w := cfg.grid.0, cfg.grid.1;
    seq(h, i requires 0 <= i < h => seq(w, j requires 0 <= j < w => StepAt(cfg, g, u, noise, i, j)))
  }

  /** The value `TissueStep` gives cell (i, j). */
  function StepAt(cfg: TissueConfig, g: Grid, u: Option<Grid>, noise: Grid, i: nat, j: nat): real
    requires StepShapes(cfg, g, u, noise) && i < cfg.grid.0 && j < cfg.grid.1
  {
    var h, w := cfg.grid.0, cfg.grid.1;
    StepCell(cfg, g[i][j], LaplacianAt(g, h, w, i, j), InputAt(u, h, w, i, j), NoiseAt(cfg.noiseRms, noise, h, w, i, j))
  }

  /** With no noise and no input, a field resting uniformly at EL is left unchanged. */
  lemma RestingFieldIsFixed(cfg: TissueConfig, noise: Grid)
    requires cfg.noiseRms <= 0.0
    ensures StepShapes(cfg, Uniform(cfg.grid.0, cfg.grid.1, cfg.EL), None, noise)
    ensures TissueStep(cfg, Uniform(cfg.grid.0, cfg.grid.1, cfg.EL), None, noise) == Uniform(cfg.grid.0, cfg.grid.1, cfg.EL)
  {
    var h, w := cfg.grid.0, cfg.grid.1;
    var g := Uniform(h, w, cfg.EL);
    var next := TissueStep(cfg, g, None, noise);
    forall i, j | 0 <= i < h && 0 <= j < w ensures next[i][j] == g[i][j] {
      assert LaplacianAt(g, h, w, i, j) == 0.0;
      assert next[i][j] == StepAt(cfg, g, None, noise, i, j);
    }
    GridExt(next, g, h, w);
  }

  /** With noise_rms <= 0 no noise is drawn: whatever grid is passed as the draw, the step is the same. */
  lemma NoiseOffIgnoresDraw(cfg: TissueConfig, g: Grid, u: Option<Grid>, n1: Grid, n2: Grid)
    requires cfg.noiseRms <= 0.0 && StepShapes(cfg, g, u, n1)
    ensures StepShapes(cfg, g, u, n2)
    ensures TissueStep(cfg, g, u, n1) == TissueStep(cfg, g, u, n2)
  {
    var h, w := cfg.grid.0, cfg.grid.1;
    var a, b := TissueStep(cfg, g, u, n1), TissueStep(cfg, g, u, n2);
    forall i, j | 0 <= i < h && 0 <= j < w ensures a[i][j] == b[i][j] {
      assert a[i][j] == StepAt(cfg, g, u, n1, i, j);
      assert b[i][j] == StepAt(cfg, g, u, n2, i, j);
    }
    GridExt(a, b, h, w);
  }

  /** An absent input field acts exactly like an all-zero one. */
  lemma AbsentInputIsZeroInput(cfg: TissueConfig, g: Grid, noise: Grid)
    requires StepShapes(cfg, g, None, noise)
    ensures StepShapes(cfg, g, Some(Uniform(cfg.grid.0, cfg.grid.1, 0.0)), noise)
    ensures TissueStep(cfg, g, None, noise) == TissueStep(cfg, g, Some(Uniform(cfg.grid.0, cfg.grid.1, 0.0)), noise)
  {
    var h, w := cfg.grid.0, cfg.grid.1;
    var z := Some(Uniform(h, w, 0.0));
    var a, b := TissueStep(cfg, g, None, noise), TissueStep(cfg, g, z, noise);
    forall i, j | 0 <= i < h && 0 <= j < w ensures a[i][j] == b[i][j] {
      assert a[i][j] == StepAt(cfg, g, None, noise, i, j);
      assert b[i][j] == StepAt(cfg, g, z, noise, i, j);
    }
    GridExt(a, b, h, w);
  }

  /** The configured boundary mode never changes a step: the Laplacian is periodic whatever it says. */
  lemma BoundaryIsIgnored(cfg: TissueConfig, boundary: string, g: Grid, u: Option<Grid>, noise: Grid)
    requires StepShapes(cfg, g, u, noise)
    ensures StepShapes(cfg.(boundary := boundary), g, u, noise)
    ensures TissueStep(cfg.(boundary := boundary), g, u, noise) == TissueStep(cfg, g, u, noise)
  {
    var h, w := cfg.grid.0, cfg.grid.1;
    var a, b := TissueStep(cfg.(boundary := boundary), g, u, noise), TissueStep(cfg, g, u, noise);
    forall i, j | 0 <= i < h && 0 <= j < w ensures a[i][j] == b[i][j] {
      assert a[i][j] == StepAt(cfg.(boundary := boundary), g, u, noise, i, j);
      assert b[i][j] == StepAt(cfg, g, u, noise, i, j);
    }
    GridExt(a, b, h, w);
  }

  /** The diffusion gain dt * D of one step. */
  function Gain(cfg: TissueConfig): real
  {
    cfg.dt * cfg.couplingD
  }

  /** Without leak, input or noise, each row of a step is the old row plus dt * D times its Laplacian row. */
  lemma DiffusionOnlyRow(cfg: TissueConfig, g: Grid, noise: Grid, i: nat)
    requires cfg.gL == 0.0 && cfg.noiseRms <= 0.0
    requires IsGrid(g, cfg.grid.0, cfg.grid.1) && i < cfg.grid.0
    ensures StepShapes(cfg, g, None, noise)
    ensures TissueStep(cfg, g, None, noise)[i] == Plus(g[i], Scale(Gain(cfg), Laplacian(g, cfg.grid.0, cfg.grid.1)[i]))
  {
    var h, w := cfg.grid.0, cfg.grid.1;
    var next := TissueStep(cfg, g, None, noise);
    var lap := Laplacian(g, h, w);
    var c := Gain(cfg);
    forall j | 0 <= j < w ensures next[i][j] == Plus(g[i], Scale(c, lap[i]))[j] {
      var l := lap[i][j];
      assert next[i][j] == StepAt(cfg, g, None, noise, i, j);
      assert next[i][j] == g[i][j] + cfg.dt * (cfg.couplingD * l);
      assert cfg.dt * (cfg.couplingD * l) == c * l;
    }
  }

  /**
   * Diffusion only redistributes voltage: with no leak, no input and no
   * noise, a step leaves the total of V over the grid unchanged.
   */
  lemma DiffusionConservesTotal(cfg: TissueConfig, g: Grid, noise: Grid)
    requires cfg.gL == 0.0 && cfg.noiseRms <= 0.0
    requires IsGrid(g, cfg.grid.0, cfg.grid.1)
    ensures StepShapes(cfg, g, None, noise)
    ensures GridSum(TissueStep(cfg, g, None, noise)) == GridSum(g)
  {
    var h, w := cfg.grid.0, cfg.grid.1;
    var lap := Laplacian(g, h, w);
    LaplacianSumsToZero(g, h, w);
    DiffusionRowSums(cfg, g, noise);
    SumOfZeroSumUpdate(RowSums(g), RowSums(lap), Gain(cfg));
  }

  /** Under diffusion alone the row totals move by dt * D times the Laplacian's row totals. */
  lemma DiffusionRowSums(cfg: TissueConfig, g: Grid, noise: Grid)
    requires cfg.gL == 0.0 && cfg.noiseRms <= 0.0
    requires IsGrid(g, cfg.grid.0, cfg.grid.1)
    ensures StepShapes(cfg, g, None, noise)
    ensures RowSums(TissueStep(cfg, g, None, noise))
         == Plus(RowSums(g), Scale(Gain(cfg), RowSums(Laplacian(g, cfg.grid.0, cfg.grid.1))))
  {
    var h, w := cfg.grid.0, cfg.grid.1;
    var next := TissueStep(cfg, g, None, noise);
    var lap := Laplacian(g, h, w);
    var c := Gain(cfg);
    forall i | 0 <= i < h ensures RowSums(next)[i] == Plus(RowSums(g), Scale(c, RowSums(lap)))[i] {
      DiffusionRowSum(cfg, g, noise, i);
    }
  }

  lemma DiffusionRowSum(cfg: TissueConfig, g: Grid, noise: Grid, i: nat)
    requires cfg.gL == 0.0 && cfg.noiseRms <= 0.0
    requires IsGrid(g, cfg.grid.0, cfg.grid.1) && i < cfg.grid.0
    ensures StepShapes(cfg, g, None, noise)
    ensures Sum(TissueStep(cfg, g, None, noise)[i])
         == Sum(g[i]) + Gain(cfg) * Sum(Laplacian(g, cfg.grid.0, cfg.grid.1)[i])
  {
    var lap := Laplacian(g, cfg.grid.0, cfg.grid.1);
    DiffusionOnlyRow(cfg, g, noise, i);
    SumOfUpdate(g[i], lap[i], Gain(cfg));
  }

  /** Adding c times a row whose total is zero leaves the total unchanged. */
  lemma SumOfZeroSumUpdate(base: seq<real>, d: seq<real>, c: real)
    requires |base| == |d| && Sum(d) == 0.0
    ensures Sum(Plus(base, Scale(c, d))) == Sum(base)
  {
    SumPlus(base, Scale(c, d));
    SumScaleOfZero(c, d);
  }

  /** Adding c times a row adds c times its total. */
  lemma SumOfUpdate(base: seq<real>, d: seq<real>, c: real)
    requires |base| == |d|
    ensures Sum(Plus(base, Scale(c, d))) == Sum(base) + c * Sum(d)
  {
    SumPlus(base, Scale(c, d));
    SumScale(c, d);
  }

  /** The tissue's voltage field V (mV), owned and advanced by this object. */
  class Tissue {
    const cfg: TissueConfig
    const h: nat
    const w: nat
    const dt: real
    var V: array2<real>

    ghost predicate Valid()
      reads this
    {
      cfg.grid == (h, w) && dt == cfg.dt && V.Length0 == h && V.Length1 == w
    }

    /** A new tissue of the configured shape, every cell at -18 mV. */
    constructor (cfg: TissueConfig)
      ensures Valid() && this.cfg == cfg && fresh(V)
      ensures Cells(V) == Uniform(cfg.grid.0, cfg.grid.1, InitialV)
    {
      this.cfg := cfg;
      h, w := cfg.grid.0, cfg.grid.1;
      dt := cfg.dt;
      new;
      V := FromGrid(Uniform(h, w, InitialV), h, w);
    }

    /** `set_initial` with a scalar: fills every cell of V in place. */
    method SetInitialScalar(v0: real)
      requires Valid()
      modifies V
      ensures Valid()
      ensures Cells(V) == Uniform(h, w, v0)
    {
      forall i, j | 0 <= i < h && 0 <= j < w {
        V[i, j] := v0;
      }
      GridExt(Cells(V), Uniform(h, w, v0), h, w);
    }

    /** `set_initial` with an array of the tissue's shape: V becomes a copy of it. */
    method SetInitialArray(v0: array2<real>)
      requires Valid()
      requires v0.Length0 == h && v0.Length1 == w
      modifies this
      ensures Valid() && fresh(V)
      ensures Cells(V) == Cells(v0)
    {
      V := FromGrid(Cells(v0), h, w);
    }

    /** `step`: V is replaced by the explicit-Euler update of its old value. */
    method Step(u: Option<Grid>, noise: Grid)
      requires Valid()
      requires u.Some? ==> IsGrid(u.value, h, w)
      requires cfg.noiseRms > 0.0 ==> IsGrid(noise, h, w)
      modifies this
      ensures Valid() && fresh(V)
      ensures Cells(V) == TissueStep(cfg, old(Cells(V)), u, noise)
    {
      V := FromGrid(TissueStep(cfg, Cells(V), u, noise), h, w);
    }
  }
}
