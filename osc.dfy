/**
 * The coherence detector: a downsampled ring buffer of the grid-mean
 * voltage, the phase-locking value (PLV) of its time-ordered contents, and a
 * debounced "persistently bad" flag.
 */
module Coherence {
  import opened Wrappers
  import opened Grids
  import opened MathUtils

  datatype OscConfig = OscConfig(windowSeconds: real, healthyPlvMin: real, downsample: int, minBadDurationS: real)

  /** Fewest buffered samples for which a PLV is computed; also the smallest buffer capacity. */
  const MinSamples: nat := 8

  /** Absolute tolerance of `np.allclose(x, 0)` (its relative tolerance multiplies 0). */
  const AllCloseTol: real := 0.00000001

  /** The ring buffer read oldest-first: rotated at the write index once full, else its filled prefix. */
  function TimeOrdered(buf: seq<real>, idx: nat, count: nat): (x: seq<real>)
    requires idx <= |buf| && count <= |buf|
    ensures |x| == count
  {
    if count == |buf| then buf[idx..] + buf[..idx] else buf[..count]
  }

  /** Keeping the last n of a window extended by v is keeping the last n of the whole history extended by v. */
  lemma LastNAppend(s: seq<real>, v: real, n: nat)
    requires n > 0
    ensures LastN(LastN(s, n) + [v], n) == LastN(s + [v], n)
  {
    if |s| > n {
      assert s[|s| - n..] + [v] == (s + [v])[|s| - n..];
      assert (s + [v])[|s| - n..][1..] == (s + [v])[|s| + 1 - n..];
    }
  }

  /**
   * Writing v at the write index and advancing the index and the saturating
   * count turns the time-ordered contents into the last |buf| values of the
   * old contents followed by v.
   */
  lemma AppendKeepsTimeOrder(buf: seq<real>, idx: nat, count: nat, v: real)
    requires idx < |buf| && count <= |buf|
    requires count < |buf| ==> idx == count
    ensures TimeOrdered(buf[idx := v], Next(idx, |buf|), if count + 1 < |buf| then count + 1 else |buf|)
         == LastN(TimeOrdered(buf, idx, count) + [v], |buf|)
  {
    var n := |buf|;
    var nb := buf[idx := v];
    if count < n {
      assert TimeOrdered(buf, idx, count) + [v] == buf[..count] + [v];
      if count + 1 < n {
        assert nb[..count + 1] == buf[..count] + [v];
      } else {
        assert nb[0..] + nb[..0] == nb == buf[..count] + [v];
      }
    } else {
      var old_ := buf[idx..] + buf[..idx];
      assert (old_ + [v])[1..] == buf[idx + 1..] + buf[..idx] + [v];
      if idx + 1 < n {
        assert nb[idx + 1..] == buf[idx + 1..];
        assert nb[..idx + 1] == buf[..idx] + [v];
      } else {
        assert buf[idx + 1..] == [];
        assert nb[0..] + nb[..0] == buf[..idx] + [v];
      }
    }
  }

  /**
   * Ring-buffer invariant over plain values: the buffer read from the write
   * index holds exactly the last |buf| samples, and before it is full the
   * write index equals the count.
   */
  ghost predicate RingHolds(buf: seq<real>, idx: nat, count: nat, samples: seq<real>)
  {
    && idx < |buf| && count <= |buf|
    && (count < |buf| ==> idx == count)
    && TimeOrdered(buf, idx, count) == LastN(samples, |buf|)
  }

  /** Appending a sample to the ring keeps the invariant, with the history extended by that sample. */
  lemma RingAppend(buf: seq<real>, idx: nat, count: nat, samples: seq<real>, v: real)
    requires RingHolds(buf, idx, count, samples)
    ensures RingHolds(buf[idx := v], (idx + 1) % |buf|, if count + 1 < |buf| then count + 1 else |buf|, samples + [v])
  {
    AppendKeepsTimeOrder(buf, idx, count, v);
    LastNAppend(samples, v, |buf|);
    assert Next(idx, |buf|) == (idx + 1) % |buf|;
  }

  /** The series with its mean subtracted. */
  function Demeaned(x: seq<real>): (d: seq<real>)
    requires |x| > 0
    ensures |d| == |x|
  {
    seq(|x|, k requires 0 <= k < |x| => x[k] - Mean(x))
  }

  /** Every element is within `np.allclose`'s tolerance of 0. */
  predicate NearZero(x: seq<real>)
  {
    forall k :: 0 <= k < |x| ==> -AllCloseTol <= x[k] <= AllCloseTol
  }

  /**
   * `_compute_plv` on the time-ordered series `x`: undefined below 8
   * samples, 0 for a (numerically) flat series, otherwise the estimator's
   * value on the demeaned series clamped to [0, 1]. The estimator stands for
   * the analytic-signal phase computation.
   */
  function Plv(x: seq<real>, estimator: seq<real> -> real): (r: Option<real>)
    ensures r.None? <==> |x| < MinSamples
    ensures r.Some? ==> 0.0 <= r.value <= 1.0
    ensures |x| >= MinSamples && NearZero(Demeaned(x)) ==> r == Some(0.0)
  {
    if |x| < MinSamples then None
    else
      var d := Demeaned(x);
      if NearZero(d) then Some(0.0) else Some(Clip(estimator(d), 0.0, 1.0))
  }

  /** A constant series of at least 8 samples has PLV exactly 0, whatever the estimator. */
  lemma ConstantSeriesHasZeroPlv(x: seq<real>, c: real, estimator: seq<real> -> real)
    requires |x| >= MinSamples
    requires forall k :: 0 <= k < |x| ==> x[k] == c
    ensures Plv(x, estimator) == Some(0.0)
  {
    SumConstant(x, c);
    var n := |x| as real;
    assert Mean(x) == (n * c) / n;
    assert Mean(x) == c;
    assert forall k :: 0 <= k < |x| ==> Demeaned(x)[k] == 0.0;
  }

  /** The debounce accumulator after one PLV sample: up one sample interval when bad, else down to no lower than 0. */
  function Accumulate(acc: real, plv: real, healthyMin: real, sampleDt: real): (r: real)
    ensures plv < healthyMin ==> r == acc + sampleDt
    ensures plv >= healthyMin && acc - sampleDt >= 0.0 ==> r == acc - sampleDt
    ensures plv >= healthyMin && acc - sampleDt <= 0.0 ==> r == 0.0
    ensures plv >= healthyMin && acc >= 0.0 && sampleDt >= 0.0 ==> r <= acc
    ensures acc >= 0.0 && sampleDt >= 0.0 ==> r >= 0.0
  {
    if plv < healthyMin then acc + sampleDt
    else if acc - sampleDt > 0.0 then acc - sampleDt else 0.0
  }

  /** Number of samples below the healthy minimum. */
  function CountBad(plvs: seq<real>, healthyMin: real): (n: nat)
    ensures n <= |plvs|
  {
    if plvs == [] then 0
    else CountBad(plvs[..|plvs| - 1], healthyMin) + (if plvs[|plvs| - 1] < healthyMin then 1 else 0)
  }

  /** The accumulator after a sequence of PLV samples. */
  function AccumulateAll(acc: real, plvs: seq<real>, healthyMin: real, sampleDt: real): real
  {
    if plvs == [] then acc
    else Accumulate(AccumulateAll(acc, plvs[..|plvs| - 1], healthyMin, sampleDt), plvs[|plvs| - 1], healthyMin, sampleDt)
  }

  /**
   * Debouncing: from a clear accumulator, the accumulated badness never
   * exceeds one sample interval per bad sample, so the flag needs at least
   * min_bad_duration / sample_dt bad samples before it can rise.
   */
  lemma {:induction false} BadnessNeedsBadSamples(plvs: seq<real>, healthyMin: real, sampleDt: real)
    requires sampleDt >= 0.0
    ensures 0.0 <= AccumulateAll(0.0, plvs, healthyMin, sampleDt) <= (CountBad(plvs, healthyMin) as real) * sampleDt
  {
    if plvs != [] {
      var n := |plvs| - 1;
      BadnessNeedsBadSamples(plvs[..n], healthyMin, sampleDt);
      var k := CountBad(plvs[..n], healthyMin) as real;
      assert (k + 1.0) * sampleDt == k * sampleDt + sampleDt;
    }
  }

  /** The detector's state: the downsampling counter, the ring buffer and the debounce accumulator. */
  class OscillationDetector {
    const cfg: OscConfig
    const h: nat
    const w: nat
    const dt: real
    const ds: nat
    const bufLen: nat
    const estimator: seq<real> -> real
    var buf: array<real>
    var bufCount: nat
    var bufIdx: nat
    var accSteps: nat
    var badSeconds: real
    var lastPlv: Option<real>
    /** Every value ever appended, oldest first. */
    ghost var samples: seq<real>

    /**
     * The buffer holds, in time order from the write index, exactly the last
     * `bufLen` appended samples; before it is full the write index equals the
     * count.
     */
    ghost predicate Valid()
      reads this, buf
    {
      && ds >= 1 && bufLen >= MinSamples
      && buf.Length == bufLen && accSteps < ds
      && RingHolds(buf[..], bufIdx, bufCount, samples)
    }

    /**
     * A detector for an h x w grid. `windowSamples` is the window length in
     * downsampled samples (the source rounds window_seconds / (dt * ds)).
     */
    constructor (cfg: OscConfig, grid: (nat, nat), dt: real, windowSamples: int, estimator: seq<real> -> real)
      ensures Valid() && this.cfg == cfg && this.dt == dt && this.estimator == estimator
      ensures ds == if cfg.downsample > 1 then cfg.downsample else 1
      ensures bufLen == if windowSamples > MinSamples then windowSamples else MinSamples
      ensures samples == [] && bufCount == 0 && bufIdx == 0 && accSteps == 0
      ensures badSeconds == 0.0 && lastPlv == None
    {
      this.cfg := cfg;
      h, w := grid.0, grid.1;
      this.dt := dt;
      this.estimator := estimator;
      ds := if cfg.downsample > 1 then cfg.downsample else 1;
      bufLen := if windowSamples > MinSamples then windowSamples else MinSamples;
      bufCount, bufIdx, accSteps := 0, 0, 0;
      badSeconds := 0.0;
      lastPlv := None;
      samples := [];
      new;
      buf := new real[bufLen];
    }

    /**
     * `update`: counts the call; on every ds-th call the grid mean is written
     * at the write index, the index advances modulo the capacity and the
     * count grows until it saturates at the capacity.
     */
    method Update(v: Grid)
      requires Valid() && NonEmptyGrid(v)
      modifies this`accSteps, this`bufIdx, this`bufCount, this`samples, buf
      ensures Valid() && buf == old(buf)
      ensures old(accSteps) + 1 < ds ==>
        accSteps == old(accSteps) + 1 && samples == old(samples) && buf[..] == old(buf[..])
        && bufIdx == old(bufIdx) && bufCount == old(bufCount)
      ensures old(accSteps) + 1 >= ds ==>
        && accSteps == 0 && samples == old(samples) + [GridMean(v)]
        && buf[..] == old(buf[..])[old(bufIdx) := GridMean(v)]
        && bufIdx == (old(bufIdx) + 1) % bufLen
        && bufCount == if old(bufCount) + 1 < bufLen then old(bufCount) + 1 else bufLen
      ensures badSeconds == old(badSeconds) && lastPlv == old(lastPlv)
    {
      if accSteps + 1 < ds {
        accSteps := accSteps + 1;
      } else {
        Push(GridMean(v));
        accSteps := 0;
      }
    }

    /** The ring write of `update`: the sample goes in at the write index, which then advances. */
    method Push(val: real)
      requires Valid()
      modifies this`bufIdx, this`bufCount, this`samples, buf
      ensures Valid()
      ensures samples == old(samples) + [val] && buf[..] == old(buf[..])[old(bufIdx) := val]
      ensures bufIdx == (old(bufIdx) + 1) % bufLen
      ensures bufCount == if old(bufCount) + 1 < bufLen then old(bufCount) + 1 else bufLen
    {
      var idx, count := bufIdx, bufCount;
      ghost var before := buf[..];
      RingAppend(before, idx, count, samples, val);
      buf[idx] := val;
      assert buf[..] == before[idx := val];
      bufIdx := (idx + 1) % bufLen;
      bufCount := if count + 1 < bufLen then count + 1 else bufLen;
      samples := samples + [val];
    }

    /** `_compute_plv`: the PLV of the last min(count, capacity) samples, oldest first. */
    function ComputePlv(): (r: Option<real>)
      reads this, buf
      requires Valid()
      ensures r == Plv(LastN(samples, bufLen), estimator)
      ensures r.None? <==> |samples| < MinSamples
    {
      Plv(TimeOrdered(buf[..], bufIdx, bufCount), estimator)
    }

    /**
     * `plv_with_persistence`: the PLV and whether it is persistently bad.
     * Without a PLV: (None, false) and the accumulator is untouched. With
     * min_bad_duration <= 0: bad is plv < healthy_min, accumulator untouched.
     * Otherwise the accumulator moves by one sample interval (dt * ds) and
     * bad means it has reached min_bad_duration.
     */
    method PlvWithPersistence() returns (plv: Option<real>, bad: bool)
      requires Valid()
      modifies this`badSeconds, this`lastPlv
      ensures Valid()
      ensures plv == ComputePlv() && lastPlv == plv
      ensures plv.None? ==> !bad && badSeconds == old(badSeconds)
      ensures plv.Some? && cfg.minBadDurationS <= 0.0 ==>
        bad == (plv.value < cfg.healthyPlvMin) && badSeconds == old(badSeconds)
      ensures plv.Some? && cfg.minBadDurationS > 0.0 ==>
        && badSeconds == Accumulate(old(badSeconds), plv.value, cfg.healthyPlvMin, dt * (ds as real))
        && bad == (badSeconds >= cfg.minBadDurationS)
    {
      plv := ComputePlv();
      lastPlv := plv;
      if plv.None? {
        return None, false;
      }
      if cfg.minBadDurationS <= 0.0 {
        return plv, plv.value < cfg.healthyPlvMin;
      }
      var sampleDt := dt * (ds as real);
      if plv.value < cfg.healthyPlvMin {
        badSeconds := badSeconds + sampleDt;
      } else {
        badSeconds := if badSeconds - sampleDt > 0.0 then badSeconds - sampleDt else 0.0;
      }
      bad := badSeconds >= cfg.minBadDurationS;
    }

    /** `last_plv`: the PLV recorded by the latest `PlvWithPersistence` (None before any). */
    function LastPlv(): (r: Option<real>)
      reads this
      ensures r == lastPlv
    {
      lastPlv
    }
  }
}
