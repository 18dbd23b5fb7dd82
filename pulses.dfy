/** The bounded pulse generator: duty cycle within a period, a refractory wait, and capped parameters on low energy. */
module Actuation {
  import opened Grids

  /** Pulse parameters; the cap map replaces amplitude and duty on low energy, missing keys reading as 0. */
  datatype ActuationConfig = ActuationConfig(
    amplitudeMV: real, duty: real, periodS: real, refractoryS: real, capWhenLowE: map<string, real>)

  /** `dict.get(key, 0.0)`. */
  function CapOr0(cap: map<string, real>, key: string): (r: real)
    ensures key in cap ==> r == cap[key]
    ensures key !in cap ==> r == 0.0
  {
    if key in cap then cap[key] else 0.0
  }

  /** Floating-point `t % p` for a positive divisor: the remainder after removing whole periods, in [0, p). */
  function RealMod(t: real, p: real): (r: real)
    requires p > 0.0
    ensures 0.0 <= r < p
    ensures 0.0 <= t < p ==> r == t
  {
    var n := (t / p).Floor;
    FloorScaled(t, p);
    if 0.0 <= t < p then
      UnitRatio(t, p);
      assert n == 0;
      t - (n as real) * p
    else
      t - (n as real) * p
  }

  lemma FloorScaled(t: real, p: real)
    requires p > 0.0
    ensures ((t / p).Floor as real) * p <= t < ((t / p).Floor as real) * p + p
  {
    var q := t / p;
    var n := q.Floor as real;
    assert n <= q < n + 1.0;
    assert q * p == t;
    MulMonotone(n, q, p);
    MulMonotone(q, n + 1.0, p);
    assert t < (n + 1.0) * p;
    assert (n + 1.0) * p == n * p + p;
  }

  lemma UnitRatio(t: real, p: real)
    requires p > 0.0 && 0.0 <= t < p
    ensures 0.0 <= t / p < 1.0
  {
    var q := t / p;
    assert q * p == t;
    ProductBelow(q, p, t);
  }

  lemma ProductBelow(a: real, p: real, t: real)
    requires p > 0.0 && 0.0 <= t < p && a * p == t
    ensures 0.0 <= a < 1.0
  {
    ScaleCompare(a, p);
  }

  lemma ScaleCompare(a: real, p: real)
    requires p > 0.0
    ensures a >= 1.0 ==> a * p >= p
    ensures a < 0.0 ==> a * p < 0.0
  {
  }

  lemma MulMonotone(a: real, b: real, p: real)
    requires p > 0.0 && a <= b
    ensures a * p <= b * p
    ensures a < b ==> a * p < b * p
  {
  }

  /** The actuator's clock and the earliest time the next pulse may start. */
  datatype PulseState = PulseState(t: real, nextOk: real)

  /** One step's outcome: the new state, whether the pulse is on, and the amplitude applied to every cell. */
  datatype PulseOut = PulseOut(state: PulseState, on: bool, level: real)

  /** Amplitude: nominal when energy is adequate, otherwise the cap map's, 0 when the cap has none. */
  function Amplitude(cfg: ActuationConfig, eOk: bool): (a: real)
    ensures eOk ==> a == cfg.amplitudeMV
    ensures !eOk && "amplitude_mV" !in cfg.capWhenLowE ==> a == 0.0
  {
    if eOk then cfg.amplitudeMV else CapOr0(cfg.capWhenLowE, "amplitude_mV")
  }

  /** Duty: nominal when energy is adequate, otherwise the cap map's, 0 (never on) when the cap has none. */
  function Duty(cfg: ActuationConfig, eOk: bool): (d: real)
    ensures eOk ==> d == cfg.duty
    ensures !eOk && "duty" !in cfg.capWhenLowE ==> d == 0.0
  {
    if eOk then cfg.duty else CapOr0(cfg.capWhenLowE, "duty")
  }

  /**
   * The end of the on-window holding t: the start of t's period plus the
   * duty fraction of the period.
   */
  function OnWindowEnd(cfg: ActuationConfig, eOk: bool, t: real): real
    requires cfg.periodS > 0.0
  {
    (t - RealMod(t, cfg.periodS)) + Duty(cfg, eOk) * cfg.periodS
  }

  /**
   * `t + (duty - phase) * period`, the schedule the step computes, is that
   * end, and it lies after t while the phase is below the duty.
   */
  lemma OnWindowEndFacts(cfg: ActuationConfig, eOk: bool, t: real)
    requires cfg.periodS > 0.0
    ensures t + (Duty(cfg, eOk) - RealMod(t, cfg.periodS) / cfg.periodS) * cfg.periodS == OnWindowEnd(cfg, eOk, t)
    ensures RealMod(t, cfg.periodS) / cfg.periodS < Duty(cfg, eOk) ==> OnWindowEnd(cfg, eOk, t) > t
  {
    OnWindowFacts(t, cfg.periodS, RealMod(t, cfg.periodS), Duty(cfg, eOk));
  }

  /** Stepping from t by (duty - phase) periods lands at the period start plus duty periods, beyond t when phase < duty. */
  lemma OnWindowFacts(t: real, p: real, m: real, duty: real)
    requires p > 0.0
    ensures t + (duty - m / p) * p == (t - m) + duty * p
    ensures m / p < duty ==> t + (duty - m / p) * p > t
  {
    DivTimes(m, p);
    assert (duty - m / p) * p == duty * p - (m / p) * p;
    if m / p < duty {
      ProductPositive(duty - m / p, p);
    }
  }

  lemma DivTimes(x: real, p: real)
    requires p > 0.0
    ensures (x / p) * p == x
  {
  }

  /**
   * `step`: advance the clock by dt; the pulse is on only when allowed, past
   * the refractory time, with positive duty and period, and in the first
   * `duty` fraction of the current period; turning on schedules the next
   * allowed time at the end of this on-window plus the refractory, never
   * earlier than before.
   */
  function PulseStep(cfg: ActuationConfig, dt: real, s: PulseState, allow: bool, eOk: bool): (r: PulseOut)
    ensures r.state.t == s.t + dt
    ensures r.state.nextOk >= s.nextOk
    ensures r.on <==> allow && r.state.t >= s.nextOk && Duty(cfg, eOk) > 0.0 && cfg.periodS > 0.0
                       && RealMod(r.state.t, cfg.periodS) / cfg.periodS < Duty(cfg, eOk)
    ensures !r.on ==> r.level == 0.0 && r.state.nextOk == s.nextOk
    ensures r.on ==> r.level == Amplitude(cfg, eOk) && r.state.nextOk >= r.state.t + cfg.refractoryS
    ensures r.on ==> var next := OnWindowEnd(cfg, eOk, r.state.t) + cfg.refractoryS;
      r.state.nextOk == if s.nextOk >= next then s.nextOk else next
  {
    var t := s.t + dt;
    var duty := Duty(cfg, eOk);
    if !allow || t < s.nextOk || duty <= 0.0 || cfg.periodS <= 0.0 then
      PulseOut(PulseState(t, s.nextOk), false, 0.0)
    else
      var phase := RealMod(t, cfg.periodS) / cfg.periodS;
      if !(phase < duty) then PulseOut(PulseState(t, s.nextOk), false, 0.0)
      else
        OnWindowEndFacts(cfg, eOk, t);
        var endOfOn := OnWindowEnd(cfg, eOk, t);
        var candidate := endOfOn + cfg.refractoryS;
        PulseOut(PulseState(t, if s.nextOk >= candidate then s.nextOk else candidate), true, Amplitude(cfg, eOk))
  }

  lemma ProductPositive(a: real, b: real)
    requires a > 0.0 && b > 0.0
    ensures a * b > 0.0
  {
  }

  /** The caller's inputs of one step. */
  datatype StepInput = StepInput(allow: bool, eOk: bool)

  /** The state after a run of steps. */
  function Run(cfg: ActuationConfig, dt: real, s: PulseState, inputs: seq<StepInput>): PulseState
  {
    if inputs == [] then s
    else
      var last := inputs[|inputs| - 1];
      PulseStep(cfg, dt, Run(cfg, dt, s, inputs[..|inputs| - 1]), last.allow, last.eOk).state
  }

  /** Along a run the clock advances by dt per step and the next allowed time never decreases. */
  lemma {:induction false} RunMonotone(cfg: ActuationConfig, dt: real, s: PulseState, inputs: seq<StepInput>)
    ensures Run(cfg, dt, s, inputs).t == s.t + (|inputs| as real) * dt
    ensures Run(cfg, dt, s, inputs).nextOk >= s.nextOk
  {
    if inputs != [] {
      var n := |inputs| - 1;
      RunMonotone(cfg, dt, s, inputs[..n]);
      var prev, last := Run(cfg, dt, s, inputs[..n]), inputs[n];
      assert Run(cfg, dt, s, inputs) == PulseStep(cfg, dt, prev, last.allow, last.eOk).state;
      SuccTimes(n, dt);
    }
  }

  lemma SuccTimes(n: nat, dt: real)
    ensures ((n + 1) as real) * dt == (n as real) * dt + dt
  {
  }

  /**
   * Refractory: after a pulse turns on at a step, every later step whose
   * clock is still before that time plus the refractory is off.
   */
  lemma Refractory(cfg: ActuationConfig, dt: real, s: PulseState, on: StepInput, later: seq<StepInput>, next: StepInput)
    requires PulseStep(cfg, dt, s, on.allow, on.eOk).on
    requires var s1 := PulseStep(cfg, dt, s, on.allow, on.eOk).state;
             Run(cfg, dt, s1, later).t + dt < s1.t + cfg.refractoryS
    ensures !PulseStep(cfg, dt, Run(cfg, dt, PulseStep(cfg, dt, s, on.allow, on.eOk).state, later), next.allow, next.eOk).on
  {
    var s1 := PulseStep(cfg, dt, s, on.allow, on.eOk).state;
    RunMonotone(cfg, dt, s1, later);
  }

  /** `PulseActuator`: the clock and the next allowed time persist between steps. */
  class PulseActuator {
    const cfg: ActuationConfig
    const dt: real
    var t: real
    var nextOkTime: real

    function State(): (s: PulseState)
      reads this
      ensures s.t == t && s.nextOk == nextOkTime
    {
      PulseState(t, nextOkTime)
    }

    constructor (cfg: ActuationConfig, dt: real)
      ensures this.cfg == cfg && this.dt == dt && State() == PulseState(0.0, 0.0)
    {
      this.cfg, this.dt := cfg, dt;
      t, nextOkTime := 0.0, 0.0;
    }

    /** `step`: an h x w field, every cell the pulse level, with the clock and schedule advanced as `PulseStep` says. */
    method Step(allow: bool, eOk: bool, h: nat, w: nat) returns (u: Grid)
      modifies this`t, this`nextOkTime
      ensures State() == PulseStep(cfg, dt, old(State()), allow, eOk).state
      ensures u == Uniform(h, w, PulseStep(cfg, dt, old(State()), allow, eOk).level)
    {
      t := t + dt;
      if !allow || t < nextOkTime {
        return Uniform(h, w, 0.0);
      }
      var amp, duty;
      if eOk {
        amp, duty := cfg.amplitudeMV, cfg.duty;
      } else {
        amp, duty := CapOr0(cfg.capWhenLowE, "amplitude_mV"), CapOr0(cfg.capWhenLowE, "duty");
      }
      if duty <= 0.0 || cfg.periodS <= 0.0 {
        return Uniform(h, w, 0.0);
      }
      var phase := RealMod(t, cfg.periodS) / cfg.periodS;
      if !(phase < duty) {
        return Uniform(h, w, 0.0);
      }
      assert amp == Amplitude(cfg, eOk) && duty == Duty(cfg, eOk);
      assert PulseStep(cfg, dt, old(State()), allow, eOk).on;
      u := Uniform(h, w, amp);
      OnWindowEndFacts(cfg, eOk, t);
      var endOfOn := t + (duty - phase) * cfg.periodS;
      nextOkTime := if nextOkTime >= endOfOn + cfg.refractoryS then nextOkTime else endOfOn + cfg.refractoryS;
    }
  }
}
