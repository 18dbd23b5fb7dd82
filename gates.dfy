/** The safety gates that must all pass before a pulse is allowed. */
module Gates {

  /** `energy_gate`: actuation is allowed only when the mean energy reaches the effective minimum. */
  predicate EnergyGate(eMean: real, eminEff: real)
  {
    eMean >= eminEff
  }

  /** Raising the mean energy never closes an open energy gate, and lowering the threshold never does either. */
  lemma EnergyGateMonotone(e1: real, e2: real, m1: real, m2: real)
    requires e1 <= e2 && m2 <= m1
    ensures EnergyGate(e1, m1) ==> EnergyGate(e2, m2)
  {
  }

  /**
   * `compute_adaptive_emin`: disabled, the configured minimum; enabled, the
   * minimum scaled down by k times the low-energy fraction, never below the
   * floor.
   */
  function ComputeAdaptiveEmin(emin: real, lowEFraction: real, enabled: bool, k: real, minFloor: real): (r: real)
    ensures !enabled ==> r == emin
    ensures enabled ==> r >= minFloor && r >= emin * (1.0 - k * lowEFraction)
    ensures enabled ==> r == minFloor || r == emin * (1.0 - k * lowEFraction)
  {
    if !enabled then emin
    else
      var scaled := emin * (1.0 - k * lowEFraction);
      if minFloor >= scaled then minFloor else scaled
  }

  /** With a non-negative minimum and gain, a larger low-energy fraction never raises the adaptive minimum. */
  lemma AdaptiveEminNonIncreasing(emin: real, f1: real, f2: real, k: real, minFloor: real)
    requires emin >= 0.0 && k >= 0.0 && f1 <= f2
    ensures ComputeAdaptiveEmin(emin, f2, true, k, minFloor) <= ComputeAdaptiveEmin(emin, f1, true, k, minFloor)
  {
    var d := f2 - f1;
    assert k * f2 == k * f1 + k * d;
    assert k * d >= 0.0;
    assert emin * (k * d) >= 0.0;
    assert emin * (1.0 - k * f2) == emin * (1.0 - k * f1) - emin * (k * d);
  }

  /** With no low-energy cells the adaptive minimum is the configured one (when that is above the floor). */
  lemma AdaptiveEminNoLowCells(emin: real, k: real, minFloor: real)
    requires minFloor <= emin
    ensures ComputeAdaptiveEmin(emin, 0.0, true, k, minFloor) == emin
  {
  }

  /** `oscillation_gate`: actuation is allowed only while the coherence is persistently bad. */
  predicate OscillationGate(plvBad: bool)
  {
    plvBad
  }

  /** The coupling estimate handed to the geometry gate: missing, not convertible to a number, or a number. */
  datatype CouplingInput = Absent | NotNumeric | Numeric(v: real)

  /**
   * `geometry_gate`: without a usable coupling estimate, or with coupling
   * below the minimum, geometry does not block; otherwise the mean mismatch
   * must not exceed its maximum.
   */
  function GeometryGate(mismatchMean: real, maxMismatch: real, dEst: CouplingInput, minCoupling: real): (ok: bool)
    ensures ok <==> !dEst.Numeric? || dEst.v < minCoupling || mismatchMean <= maxMismatch
    ensures !ok ==> dEst.Numeric? && dEst.v >= minCoupling
  {
    match dEst
    case Absent => true
    case NotNumeric => true
    case Numeric(d) => if d < minCoupling then true else mismatchMean <= maxMismatch
  }

  /** The three cases of the geometry-gate test: high coupling blocks, low coupling and unknown coupling allow. */
  lemma GeometryGateRespectsCoupling()
    ensures !GeometryGate(0.6, 0.3, Numeric(0.9), 0.1)
    ensures GeometryGate(0.6, 0.3, Numeric(0.05), 0.1)
    ensures GeometryGate(0.6, 0.3, Absent, 0.1)
  {
  }
}
