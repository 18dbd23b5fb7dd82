# polarity_homeostat in Dafny

This project models the core of `polarity_homeostat`, a grid-based control loop for tissue bioelectric state. On a periodic H x W grid it covers:

- **Tissue voltage field** (`tissue.dfy`, class `TissueField.Tissue`): a leaky RC grid with diffusive coupling through the periodic five-point Laplacian. It is advanced by explicit Euler steps.
- **Energy store** (`energy.dfy`, class `EnergyField.Energy`): the same kind of Euler update with production, decay, an actuation cost on |u| and an optional flux term, clamped at zero after every step.
- **Sensor** (`recorder.dfy`, class `Sensor.Recorder`):
  - a per-cell Schmitt-trigger LOW label;
  - a leaky LOW-occupancy integrator;
  - a four-neighbour label mismatch;
  - the LOW fraction of the grid;
  - a slow EMA of the global voltage offset from a lazily set healthy reference.
- **Coherence detector** (`osc.dfy`, class `Coherence.OscillationDetector`): a downsampled ring buffer of the grid-mean voltage, the phase-locking value (PLV) of its time-ordered contents, and a debounced "persistently bad" flag.
- **Safety gates** (`gates.dfy`): the energy gate, the adaptive energy minimum, the oscillation gate and the geometry gate.
- **Rules decoder** (`rules.dfy`, class `Decoder.RulesDecoder`):
  - REST / REPAIR / PRUNE are scored by the fraction of their rule conditions that hold;
  - the winner is chosen by argmax, with a hysteresis margin and a hold countdown;
  - PRUNE is gated by a strict dwell on its own evidence.
- **Pulse actuator** (`pulses.dfy`, class `Actuation.PulseActuator`): a duty-cycle window within each period, a refractory wait, and capped parameters when energy is low.
- **Domain injuries** (`injuries.dfy`): voltage offsets and energy resets over domain slices, applied to copies of the grids.
- **Evaluation** (`metrics.dfy`, `roc.dfy`):
  - recovery time, flicker rate and PLV retention;
  - ROC and precision–recall curves with their trapezoid areas.

Shared pieces live in two more files. `grids.dfy` holds grid values, periodic indices and sums. `wrappers.dfy` holds `Option` and `Result`. The periodic Laplacian, the EMA and the coupling estimate are in `math_utils.dfy`.

## How the model is built

Objects that own a field which their methods reassign are classes:

- the tissue's `V` and the energy store's `E` are `array2` fields;
- the recorder's label and occupancy grids are `array2` fields;
- the detector's ring buffer is an `array`.

Their methods carry `modifies` frames and are proved against whole-grid specification functions (`TissueStep`, `EnergyStep`, `Bands`, `Occupancy`). The ring-buffer methods are proved against a ghost history of every appended sample. Grids passed between components are values of type `seq<seq<real>>`: the voltage read by the sensors, the actuation field and the noise draw.

Pure code is written as functions and lemmas: the gates, scoring, metrics and ROC/PR. Loops in the source are methods with loop invariants:

- the frame loop of the coupling estimate;
- the recovery-time scan;
- the injury loop.

Arithmetic is on `real` and ignores rounding.

Where the repository's prose description differs from its code, the model follows the code:

- **LOW band.** A cell enters LOW when `V <= low_enter` (the description says at or above the threshold). It leaves LOW when `V >= low_exit`. When both hold, entering wins (`sensing/recorder.py:46-49`).
- **No Hill modulation.** The actuator has no Hill-type modulation and takes no depolarisation input (`actuation/pulses.py:28-56`).
- **Absent features.** There is no domain orchestrator, no controller-health flag and no reflecting boundary. The Laplacian is always periodic, whatever `boundary` says.

## Model

| member | source | states |
|---|---|---|
| MathUtils.Clip | src/polarity_homeostat/decoder/rules.py:44-45 | The clamp of `_clamp01` (and `np.clip`) lands in [lo, hi]. Inside the interval it returns x; below it returns lo; above it returns hi. |
| MathUtils.AtLeastOne | src/polarity_homeostat/eval/metrics.py:15 | `max(1, n)` for the recovery dwell, the retention window (line 50) and the strict prune dwell (rules.py line 88): it is the count itself when that is at least 1, and 1 otherwise. |
| Grids.Mean | src/polarity_homeostat/sensing/osc.py:58 | `np.mean` of a non-empty sequence: the mean times the length is the total. |
| Grids.GridMean | src/polarity_homeostat/sensing/recorder.py:84-85 | `np.mean` of a non-empty grid: the mean times H·W is the grid total. |
| MathUtils.LaplacianAt | src/polarity_homeostat/utils/math_utils.py:6-10 | One cell of the periodic five-point Laplacian: the rows i±1 mod H and columns j±1 mod W, minus four times the cell. |
| MathUtils.Laplacian | src/polarity_homeostat/utils/math_utils.py:5-10 | Cell (i, j) of the Laplacian reads rows i±1 mod H and columns j±1 mod W, minus four times the cell. The result has the input's shape. |
| MathUtils.LaplacianOfConstant | src/polarity_homeostat/utils/math_utils.py:10 | The Laplacian of a constant field is zero at every cell. |
| MathUtils.LaplacianRowSum | src/polarity_homeostat/utils/math_utils.py:6-10 | A Laplacian row sums to (row above) + (row below) − 2·(row), with wrap-around. |
| MathUtils.LaplacianSumsToZero | src/polarity_homeostat/utils/math_utils.py:6-10 | With periodic wrap-around the Laplacian sums to zero over the whole grid. |
| MathUtils.EmaUpdate | src/polarity_homeostat/utils/math_utils.py:15-18 | The EMA result lies between prev and x, whichever is larger. An alpha ≥ 1 returns x. |
| MathUtils.EmaAlphaClipped | src/polarity_homeostat/utils/math_utils.py:17 | Only alpha clipped into [1e-6, 1] matters. An alpha at or below 1e-6 acts exactly as 1e-6. |
| MathUtils.ConvexStep | src/polarity_homeostat/utils/math_utils.py:18 | For a in [0, 1], (1−a)·prev + a·x lies between prev and x. |
| MathUtils.LastN | src/polarity_homeostat/utils/math_utils.py:28-29 | `s[-n:]` holds min(n, \|s\|) elements: the last ones of s, in order. |
| MathUtils.CouplingEstimate | src/polarity_homeostat/utils/math_utils.py:21-41 | The estimate always lies in [0, 1]. It is 0 when the window is not a 3-D stack or has fewer than four frames. |
| MathUtils.MappedMean | src/polarity_homeostat/utils/math_utils.py:41 | The mean correlation, mapped from [−1, 1] by (m+1)/2 and clipped, lies in [0, 1]. |
| MathUtils.Correlations | src/polarity_homeostat/utils/math_utils.py:30-40 | One correlation per frame, in frame order. |
| MathUtils.CorrelationsSnoc | src/polarity_homeostat/utils/math_utils.py:31-40 | Processing one more frame appends exactly that frame's correlation. |
| MathUtils.EstimateCouplingShortlag | src/polarity_homeostat/utils/math_utils.py:21-41 | The frame loop computes the value `CouplingEstimate` specifies (guard, last min(50, T) frames, mapped mean), so its result lies in [0, 1]. |
| MathUtils.CouplingIgnoresOldFrames | src/polarity_homeostat/utils/math_utils.py:28-29 | Frames older than the last 50 never influence the estimate. |
| TissueField.StepCell | src/polarity_homeostat/model/tissue.py:43-49 | One cell's explicit Euler update V + dt·(−gL·(V − EL) + D·lap + u) + noise. |
| TissueField.StepAt | src/polarity_homeostat/model/tissue.py:42-49 | `StepCell` of the cell's V, its Laplacian, its input (0 when there is no input) and its noise (0 when noise_rms ≤ 0). |
| TissueField.TissueStep | src/polarity_homeostat/model/tissue.py:40-49 | A step yields an H x W field. Each cell is given by the cell's explicit-Euler update `StepAt`: V + dt·(−gL·(V−EL) + D·lap + u) + noise, with u = 0 when absent and noise = 0 when noise_rms ≤ 0. |
| TissueField.RestingFieldIsFixed | src/polarity_homeostat/model/tissue.py:42-49 | With no noise and no input, a field uniform at EL is a fixed point of the step. |
| TissueField.NoiseOffIgnoresDraw | src/polarity_homeostat/model/tissue.py:45 | With noise_rms ≤ 0 no noise enters the step: any two draws give the same next field. |
| TissueField.AbsentInputIsZeroInput | src/polarity_homeostat/model/tissue.py:46-48 | An absent u_act gives exactly the step of an all-zero input. |
| TissueField.BoundaryIsIgnored | src/polarity_homeostat/model/tissue.py:40-49 | The configured `boundary` never changes a step: the Laplacian is periodic whatever it says. |
| TissueField.DiffusionOnlyRow | src/polarity_homeostat/model/tissue.py:42-49 | With no leak, noise or input, each row becomes the old row plus dt·D times its Laplacian row. |
| TissueField.DiffusionRowSums | src/polarity_homeostat/model/tissue.py:42-49 | Under diffusion alone, each row total moves by dt·D times the Laplacian's row total. |
| TissueField.DiffusionConservesTotal | src/polarity_homeostat/model/tissue.py:40-49 | Diffusion only redistributes voltage. With no leak, noise or input, the grid total of V is unchanged by a step. |
| TissueField.Tissue.constructor | src/polarity_homeostat/model/tissue.py:26-30 | A new tissue has the configured shape and V = −18 mV in every cell. |
| TissueField.Tissue.SetInitialScalar | src/polarity_homeostat/model/tissue.py:37-38 | A scalar fills every cell of V in place. |
| TissueField.Tissue.SetInitialArray | src/polarity_homeostat/model/tissue.py:34-36 | An array of the tissue's shape replaces V with a fresh copy holding the same cells. |
| TissueField.Tissue.Step | src/polarity_homeostat/model/tissue.py:40-49 | V becomes a fresh array equal to `TissueStep` of the old V, the input and the noise draw. |
| EnergyField.Abs | src/polarity_homeostat/model/energy.py:44 | \|x\| is non-negative and equals x or −x. |
| EnergyField.CostAt | src/polarity_homeostat/model/energy.py:42-44 | The actuation cost α·\|u\| at a cell, and 0 when there is no actuation field. |
| EnergyField.FluxAt | src/polarity_homeostat/model/energy.py:41-47 | The flux β·lap E at a cell, and 0 when β is 0, in which case the Laplacian is not computed. |
| EnergyField.RawStepAt | src/polarity_homeostat/model/energy.py:45-48 | The unclamped Euler value E + dt·(k(1 − E) − γE − cost + flux); with dt = 0 it is the cell's E. |
| EnergyField.EnergyStep | src/polarity_homeostat/model/energy.py:39-50 | After a step every cell is ≥ 0, whatever u_act is. Each cell is at least the unclamped Euler value E + dt·(k(1−E) − γE − α\|u\| + β·lap E), and equals it when that value is non-negative; when it is negative the cell is exactly 0, as `np.maximum(E, 0)` gives. |
| EnergyField.CostIgnoresSign | src/polarity_homeostat/model/energy.py:42-44 | The actuation cost depends only on \|u\|: inputs with equal magnitudes give the same step. |
| EnergyField.AbsentInputIsZeroInput | src/polarity_homeostat/model/energy.py:42-44 | An absent u_act costs nothing: the step equals the step of an all-zero input. |
| EnergyField.NoFluxIsLocal | src/polarity_homeostat/model/energy.py:41-47 | With β = 0 there is no diffusion term: a cell's next value depends only on its own value and input. |
| EnergyField.Energy.constructor | src/polarity_homeostat/model/energy.py:27-30 | A new store has the configured shape and E0 in every cell. |
| EnergyField.Energy.SetInitialScalar | src/polarity_homeostat/model/energy.py:36-37 | A scalar fills every cell of E in place. |
| EnergyField.Energy.SetInitialArray | src/polarity_homeostat/model/energy.py:33-35 | An array of the store's shape replaces E with a fresh copy holding the same cells. |
| EnergyField.Energy.Step | src/polarity_homeostat/model/energy.py:39-50 | E becomes `EnergyStep` of the old E and u_act, so every cell is non-negative. The `u_tnt_ev` argument has no effect on the result. |
| Sensor.NextBand | src/polarity_homeostat/sensing/recorder.py:46-49 | A cell is LOW iff V ≤ low_enter, or it was LOW and V < low_exit. Strictly between the thresholds the previous label is kept, and entering wins when both conditions hold. |
| Sensor.Bands | src/polarity_homeostat/sensing/recorder.py:43-49 | Every cell of the new label grid is `NextBand` of its voltage and previous label. |
| Sensor.LeakyStep | src/polarity_homeostat/sensing/recorder.py:53-54 | Leaky integration keeps an occupancy in [0, 1]. It never falls while the cell is LOW and never rises while it is not. |
| Sensor.Occupancy | src/polarity_homeostat/sensing/recorder.py:51-54 | Each cell is its own leaky step, and an occupancy grid within [0, 1] stays within [0, 1]. |
| Sensor.DifferingNeighbours | src/polarity_homeostat/sensing/recorder.py:61-66 | At most four periodic neighbours differ from a cell's label. |
| Sensor.MismatchAt | src/polarity_homeostat/sensing/recorder.py:61-68 | A cell's mismatch is the fraction of its four periodic neighbours whose LOW label differs, so it lies in {0, .25, .5, .75, 1}. |
| Sensor.MismatchGrid | src/polarity_homeostat/sensing/recorder.py:56-69 | The mismatch grid has the label grid's shape, lies in [0, 1], and holds `MismatchAt` at every cell. |
| Sensor.UniformLabelsAgree | src/polarity_homeostat/sensing/recorder.py:61-69 | When all labels are equal, the mismatch is 0 everywhere. |
| Sensor.CountRowExtremes | src/polarity_homeostat/sensing/recorder.py:73 | A row's LOW count is 0 iff no cell is LOW, and equals the row length iff every cell is LOW. |
| Sensor.CountLowExtremes | src/polarity_homeostat/sensing/recorder.py:73 | The LOW count is at most H·W. It is 0 iff no cell is LOW, and H·W iff all cells are. |
| Sensor.LowFraction | src/polarity_homeostat/sensing/recorder.py:71-73 | The LOW fraction times H·W is the LOW count, and the fraction lies in [0, 1]. It is 0 iff no cell is LOW, and 1 iff all cells are. |
| Sensor.Recorder.constructor | src/polarity_homeostat/sensing/recorder.py:25-41 | No cell starts LOW and every occupancy starts at 0. Both EMA coefficients are dt over their time constant, clipped into [1e-6, 1]. There is no reference and the offset EMA is 0. |
| Sensor.Recorder.UpdateBands | src/polarity_homeostat/sensing/recorder.py:43-49 | Only the label grid changes, and it becomes `Bands` of V and the old labels. |
| Sensor.Recorder.UpdateLowOccupancy | src/polarity_homeostat/sensing/recorder.py:51-54 | Only the occupancy grid changes, and it becomes `Occupancy` of the old occupancy and the labels. The invariant keeps every occupancy in [0, 1]. |
| Sensor.Recorder.NeighborMismatch | src/polarity_homeostat/sensing/recorder.py:56-69 | Each cell is the number of differing periodic neighbours divided by 4, which lies in [0, 1]. V is not read. |
| Sensor.Recorder.DomainLowFraction | src/polarity_homeostat/sensing/recorder.py:71-73 | The recorder returns `LowFraction` of its label grid, a value in [0, 1]. |
| Sensor.Recorder.SetHealthyRef | src/polarity_homeostat/sensing/recorder.py:75-76 | The healthy reference becomes the given value. |
| Sensor.Recorder.GlobalVOffset | src/polarity_homeostat/sensing/recorder.py:78-87 | With no reference set, the reference becomes mean(V); otherwise it is kept. The offset EMA advances towards mean(V) − reference and is returned, so the first call without a reference returns 0. |
| Coherence.TimeOrdered | src/polarity_homeostat/sensing/osc.py:52-56 | The reconstructed series has exactly `count` samples. |
| Coherence.LastNAppend | src/polarity_homeostat/sensing/osc.py:44-47 | Keeping the last n samples before or after an append gives the same window. |
| Coherence.AppendKeepsTimeOrder | src/polarity_homeostat/sensing/osc.py:45-56 | Writing at the index, advancing it mod capacity and saturating the count makes the time-ordered reading the last `capacity` elements of the old reading plus the new value. |
| Coherence.RingAppend | src/polarity_homeostat/sensing/osc.py:44-47 | One ring-buffer append preserves the buffer invariant: the buffer holds the last `capacity` samples of the history extended by the new one. |
| Coherence.Demeaned | src/polarity_homeostat/sensing/osc.py:58 | Demeaning keeps the series length. |
| Coherence.Plv | src/polarity_homeostat/sensing/osc.py:49-64 | There is no PLV iff fewer than 8 samples are held. A near-zero demeaned series gives 0. Otherwise the estimate is clamped into [0, 1]. |
| Coherence.ConstantSeriesHasZeroPlv | src/polarity_homeostat/sensing/osc.py:58-60 | A constant series of at least 8 samples has PLV exactly 0, whatever the phase estimator. |
| Coherence.Accumulate | src/polarity_homeostat/sensing/osc.py:79-83 | A bad PLV adds one sample interval. A good PLV subtracts one and floors at 0, so it never increases the accumulator and never makes it negative. |
| Coherence.CountBad | src/polarity_homeostat/sensing/osc.py:80 | At most every sample is bad. |
| Coherence.BadnessNeedsBadSamples | src/polarity_homeostat/sensing/osc.py:78-84 | From 0, the accumulator stays in [0, (number of bad samples)·interval], so reaching the threshold needs enough bad samples. |
| Coherence.OscillationDetector.constructor | src/polarity_homeostat/sensing/osc.py:24-36 | The downsample factor is max(1, downsample) and the capacity is max(8, window samples). The buffer, the counters, the accumulator and the last PLV start empty or at zero. |
| Coherence.OscillationDetector.Update | src/polarity_homeostat/sensing/osc.py:38-47 | Before the ds-th call only the step counter moves. On the ds-th call the counter resets to 0 and mean(V) is written at the index. The index then advances mod capacity and the count saturates at capacity, so the history gains the sample. |
| Coherence.OscillationDetector.Push | src/polarity_homeostat/sensing/osc.py:44-47 | The value is written at the write index, which advances mod capacity. The count saturates at capacity, the history gains the value, and the buffer invariant is kept. |
| Coherence.OscillationDetector.ComputePlv | src/polarity_homeostat/sensing/osc.py:49-64 | The PLV is that of the last `capacity` appended samples in time order. It is absent iff fewer than 8 were ever appended. |
| Coherence.OscillationDetector.PlvWithPersistence | src/polarity_homeostat/sensing/osc.py:66-84 | It records and returns the PLV. With no PLV it returns (None, False) and leaves the accumulator alone. With min_bad_duration ≤ 0 the flag is plv < healthy_min and the accumulator is untouched. Otherwise the accumulator takes one `Accumulate` step and the flag is accumulator ≥ min_bad_duration. |
| Coherence.OscillationDetector.LastPlv | src/polarity_homeostat/sensing/osc.py:86-88 | Returns the PLV recorded by the last persistence call. |
| Gates.EnergyGateMonotone | src/polarity_homeostat/safety/gates.py:6-8 | The gate E_mean ≥ Emin_eff stays open when energy rises or the minimum falls. |
| Gates.ComputeAdaptiveEmin | src/polarity_homeostat/safety/gates.py:11-18 | Disabled, it returns Emin. Enabled, it returns the larger of the floor and Emin·(1 − k·frac), so it is always ≥ the floor. |
| Gates.AdaptiveEminNonIncreasing | src/polarity_homeostat/safety/gates.py:18 | For Emin, k ≥ 0, a larger low-energy fraction never raises the adaptive minimum. |
| Gates.AdaptiveEminNoLowCells | src/polarity_homeostat/safety/gates.py:18 | With no low-energy cells and a floor ≤ Emin, the adaptive minimum is Emin. |
| Gates.GeometryGate | src/polarity_homeostat/safety/gates.py:26-39 | The gate allows iff the coupling estimate is absent or not numeric, or it is below min_coupling, or the mismatch is ≤ max_mismatch. It blocks only under adequate coupling. |
| Gates.GeometryGateRespectsCoupling | tests/test_geometry_gate.py:4-13 | Mismatch 0.6 with max 0.3 and min coupling 0.1: high coupling 0.9 blocks, low coupling 0.05 allows, and no estimate allows. |
| Decoder.CountTrue | src/polarity_homeostat/decoder/rules.py:77 | The count of true conditions is at most their number. It is 0 iff none hold, and all iff all hold. |
| Decoder.Fraction | src/polarity_homeostat/decoder/rules.py:77-85 | The satisfied fraction times the number of conditions is the count. The fraction lies in [0, 1], is 0 iff none hold, and is 1 iff all hold. |
| Decoder.PlvOk | src/polarity_homeostat/decoder/rules.py:62 | The PLV is healthy when missing or at least the minimum. This is exactly when it is not bad. |
| Decoder.PlvBad | src/polarity_homeostat/decoder/rules.py:63 | The PLV is bad when present and below the minimum, so a missing PLV is never bad. |
| Decoder.PruneCond | src/polarity_homeostat/decoder/rules.py:113-121 | With PRUNE enabled, a frame qualifies iff low_occ ≥ its threshold, E ≤ the energy maximum and mismatch ≥ its minimum. With PRUNE disabled no frame qualifies. |
| Decoder.RepairConditions | src/polarity_homeostat/decoder/rules.py:69-76 | REPAIR has five conditions. |
| Decoder.RestConditions | src/polarity_homeostat/decoder/rules.py:79-84 | REST has three conditions. |
| Decoder.PruneDwell | src/polarity_homeostat/decoder/rules.py:88 | The strict dwell max(1, prune_dwell_steps) is the configured value when that is at least 1, and 1 otherwise. |
| Decoder.Scores | src/polarity_homeostat/decoder/rules.py:47-97 | All three scores lie in [0, 1]: REST is k/3 and REPAIR is k/5 for k satisfied conditions. REST is 1 iff the PLV is ok (a missing PLV counts as ok), occupancy is low and mismatch is high. PRUNE is 0 or 1, and 1 iff PRUNE is enabled, the condition holds and the counter reached the strict dwell. |
| Decoder.Argmax | src/polarity_homeostat/decoder/rules.py:128 | The proposal is a maximal score, and every earlier index scores strictly less: ties go to the lowest index. |
| Decoder.Tick | src/polarity_homeostat/decoder/rules.py:108-110 | The hold countdown falls by exactly 1 when positive and stays at 0 otherwise. |
| Decoder.NextPruneSteps | src/polarity_homeostat/decoder/rules.py:112-122 | The prune counter increments on a qualifying call. It resets to 0 otherwise, including when PRUNE is disabled. |
| Decoder.DwellSteps | src/polarity_homeostat/decoder/rules.py:141 | An accepted switch sets hold to max(0, decision_dwell): the dwell itself when it is non-negative, and 0 when it is negative. |
| Decoder.NextDecision | src/polarity_homeostat/decoder/rules.py:99-144 | The returned action is the stored last action. A switch happens if and only if no hold remains after the decrement and the argmax proposal differs from the current action and beats its score by more than the margin. A switch takes the proposal and resets hold to the dwell; otherwise the action is kept and hold is the decremented value. The prune counter follows `NextPruneSteps`. |
| Decoder.PruneEnteredOnlyAfterDwell | src/polarity_homeostat/decoder/rules.py:87-91 | Switching into PRUNE requires PRUNE to be enabled, the condition to hold now and the counter to have reached max(1, prune_dwell_steps). |
| Decoder.HoldBlocksSwitches | src/polarity_homeostat/decoder/rules.py:108-134 | For fewer calls than the hold countdown, the action never changes and hold falls by one per call. |
| Decoder.TrailingQualifying | src/polarity_homeostat/decoder/rules.py:119 | The trailing run of qualifying calls is at most the number of calls. |
| Decoder.SwitchOnceHoldExpires | src/polarity_homeostat/decoder/rules.py:108-142 | From a state whose hold lasts k more calls, k calls keep the action (whatever their frames). The next call then switches to a proposal that differs from the action and beats it by more than the margin, and restarts the hold at the dwell. |
| Decoder.PruneCounterIsTrailingRun | src/polarity_homeostat/decoder/rules.py:112-122 | After any sequence of calls the prune counter is the length of the trailing run of qualifying calls, plus the start value if every call qualified. |
| Decoder.RulesDecoder.State | src/polarity_homeostat/decoder/rules.py:39-41 | The decoder state is its last action, hold countdown and prune counter. |
| Decoder.RulesDecoder.constructor | src/polarity_homeostat/decoder/rules.py:36-41 | A new decoder rests with no hold and a zero prune counter. |
| Decoder.RulesDecoder.SetThresholds | tests/test_decoder_dwell_hysteresis.py:15-16 | The thresholds can be replaced mid-run. |
| Decoder.RulesDecoder.Decide | src/polarity_homeostat/decoder/rules.py:99-144 | The call moves the state and returns the action as `NextDecision` says. |
| Decoder.WeakRestKeepsRest | tests/test_decoder_dwell_hysteresis.py:9-10 | The first frame of the dwell test yields REST. |
| Decoder.NearRestKeepsRest | tests/test_decoder_dwell_hysteresis.py:12-13 | The second frame meets all three REST conditions and none of the five REPAIR conditions, so REST (score 1 against 0) is the proposal and the decoder stays at REST. |
| Decoder.StrongRepairSwitches | tests/test_decoder_dwell_hysteresis.py:15-18 | Under the swapped thresholds, REPAIR wins by more than the margin, is accepted, and sets hold to 5. |
| Decoder.StrongRestScores | tests/test_decoder_dwell_hysteresis.py:21 | The strong REST frame scores REST 1, REPAIR 0.2 and PRUNE 0. |
| Decoder.StrongRestUnderHold | tests/test_decoder_dwell_hysteresis.py:19-25 | While hold > 1 after the decrement, strong REST is blocked. When the hold runs out, REST is taken and hold resets to 5. |
| Decoder.DwellOpening | tests/test_decoder_dwell_hysteresis.py:4-18 | The first three calls of the dwell test return REST, REST, REPAIR and leave REPAIR held for 5. |
| Decoder.DwellHold | tests/test_decoder_dwell_hysteresis.py:19-25 | The next five calls return REPAIR four times, then REST. |
| Decoder.DwellHysteresisScenario | tests/test_decoder_dwell_hysteresis.py:4-25 | The whole dwell-and-hysteresis test returns REST, REST, then REPAIR ×5, then REST. |
| Decoder.PruneFrameScores | tests/test_prune_strict_demo.py:14 | The prune frame scores REST 1/3 and REPAIR 3/5. |
| Decoder.PruneFrameStep | tests/test_prune_strict_demo.py:13-15 | Each of the six prune frames advances the counter by one. It returns REPAIR until the counter reaches the dwell of 5, then PRUNE. |
| Decoder.PruneScenarioStep | tests/test_prune_strict_demo.py:13-15 | The k-th prune frame moves the decoder to the scenario's next state and returns REPAIR for the first four frames, PRUNE after. |
| Decoder.PruneStrictScenario | tests/test_prune_strict_demo.py:4-16 | Six qualifying frames return REPAIR ×4 then PRUNE ×2, so the last action is PRUNE. |
| Actuation.CapOr0 | src/polarity_homeostat/actuation/pulses.py:40-41 | A cap key reads its value, and a missing key reads 0.0. |
| Actuation.RealMod | src/polarity_homeostat/actuation/pulses.py:46 | For a positive period, t mod period lies in [0, period), and equals t when t is already in that range. |
| Actuation.Amplitude | src/polarity_homeostat/actuation/pulses.py:36-40 | The nominal amplitude when energy is adequate; otherwise the cap map's `amplitude_mV`, or 0 when the cap has none. |
| Actuation.Duty | src/polarity_homeostat/actuation/pulses.py:36-41 | The nominal duty when energy is adequate; otherwise the cap map's `duty`, or 0 when the cap has none, so the pulse never turns on. |
| Actuation.OnWindowEnd | src/polarity_homeostat/actuation/pulses.py:54 | The end of the current on-window: the start of t's period plus duty periods. |
| Actuation.OnWindowEndFacts | src/polarity_homeostat/actuation/pulses.py:46-54 | The step's `t + (duty − phase)·period` equals `OnWindowEnd`, and it lies after t whenever the phase is below the duty. |
| Actuation.PulseStep | src/polarity_homeostat/actuation/pulses.py:28-56 | The clock advances by dt on every call and next_ok never decreases. The pulse is on iff allowed, t ≥ next_ok, duty > 0, period > 0 and (t mod period)/period < duty. Off means level 0 with next_ok unchanged. On means the nominal or capped amplitude, and next_ok becomes max(next_ok, end of the on-window + refractory), which is at least t + refractory. |
| Actuation.RunMonotone | src/polarity_homeostat/actuation/pulses.py:29-55 | After n calls the clock is t0 + n·dt, and next_ok is at least its start value. |
| Actuation.Refractory | src/polarity_homeostat/actuation/pulses.py:32-55 | After a pulse turns on at t, every later call whose clock is still before t + refractory is off. |
| Actuation.PulseActuator.State | src/polarity_homeostat/actuation/pulses.py:25-26 | The actuator state is its clock and next allowed time. |
| Actuation.PulseActuator.constructor | src/polarity_homeostat/actuation/pulses.py:22-26 | The clock and next allowed time start at 0. |
| Actuation.PulseActuator.Step | src/polarity_homeostat/actuation/pulses.py:28-56 | The state moves as `PulseStep` says, and every cell of the returned field is its level. |
| Injuries.DeltaAt | src/polarity_homeostat/experiments/injuries.py:36-49 | A cell's total voltage offset: the sum of `delta_V_mV` over the present entries with a valid id whose slice holds the cell. |
| Injuries.EnergyAt | src/polarity_homeostat/experiments/injuries.py:36-53 | A cell's energy after the entries: the `E0` of the last present, valid entry whose slice holds the cell and which has one, else the old value. |
| Injuries.UncoveredCellUnchanged | src/polarity_homeostat/experiments/injuries.py:36-53 | A cell that no applicable entry's slice covers keeps its V and E. None entries, missing ids and out-of-range ids apply to nothing. |
| Injuries.DeltasAddUp | src/polarity_homeostat/experiments/injuries.py:47-49 | Voltage offsets of successive entries add up. |
| Injuries.LastResetWins | src/polarity_homeostat/experiments/injuries.py:51-53 | When later entries reset a cell's energy, the earlier entries no longer matter: the last reset wins. |
| Injuries.ApplyDomainInjuries | src/polarity_homeostat/experiments/injuries.py:9-55 | An empty list returns the inputs themselves. Otherwise fresh copies are returned and the inputs are not modified. Each V cell gains the sum of the applicable offsets covering it, and each E cell takes the last applicable reset covering it, else its old value. |
| Metrics.ComputeRecoveryTime | src/polarity_homeostat/eval/metrics.py:8-23 | If it returns r, then samples r … r+dwell−1 are all below threshold and r is the smallest such start. It returns None iff no such run exists, which includes the empty series. |
| Metrics.RecoverySmoke | tests/test_metrics_smoke.py:5-8 | The smoke series with dwell 3 recovers at step 5. |
| Metrics.Changes | src/polarity_homeostat/eval/metrics.py:38 | There are at most len − 1 adjacent changes, and none iff the series is constant. |
| Metrics.AfterWarmup | src/polarity_homeostat/eval/metrics.py:33-35 | Warm-up drops the first steps. When it would drop everything, only the last action is kept. |
| Metrics.SwitchRate | src/polarity_homeostat/eval/metrics.py:36-39 | The rate is 0 for at most one element. Otherwise it is changes/(len − 1), in [0, 1]: 0 iff constant, and 1 iff every step changes. |
| Metrics.EveryStepChanges | src/polarity_homeostat/eval/metrics.py:38-39 | The change count reaches len − 1 iff every adjacent pair differs. |
| Metrics.FlickerRate | src/polarity_homeostat/eval/metrics.py:26-39 | The flicker rate is 0 for no actions; otherwise it is the switch rate after warm-up. It lies in [0, 1]. |
| Metrics.LongWarmupNoFlicker | src/polarity_homeostat/eval/metrics.py:35-37 | A warm-up at least as long as the series gives rate 0. |
| Metrics.Present | src/polarity_homeostat/eval/metrics.py:49 | Dropping missing values never lengthens a series. |
| Metrics.PresentConcat | src/polarity_homeostat/eval/metrics.py:49 | Dropping missing values commutes with concatenation. |
| Metrics.NanMean | src/polarity_homeostat/eval/metrics.py:53-54 | The mean ignoring missing values is undefined iff no value is present. |
| Metrics.NanMeanSkipsMissing | src/polarity_homeostat/eval/metrics.py:49-54 | A missing value anywhere does not change the window mean. |
| Metrics.ConstantWindowMean | src/polarity_homeostat/eval/metrics.py:53-54 | A window of one present constant has that constant as its mean. |
| Metrics.PlvRetention | src/polarity_homeostat/eval/metrics.py:42-58 | The retention is None iff the series is shorter than two windows, the first-window mean is undefined or ≤ 1e-6, or the last-window mean is undefined. A defined retention lies in [0, 1]. |
| Metrics.RetentionIsClippedRatio | src/polarity_homeostat/eval/metrics.py:51-58 | A defined retention comes from a series at least two windows long with both window means defined and the first above 1e-6, and it equals the last mean over the first, clipped to [0, 1]. |
| Metrics.RetainedWhenNotDropping | src/polarity_homeostat/eval/metrics.py:55-58 | When the last-window mean is at least the first-window mean, the retention is exactly 1. |
| Metrics.RetentionSmoke | tests/test_metrics_smoke.py:10-12 | Ten samples of 0.5 then ten of 0.8 with window 5 give retention 1. |
| RocPr.Iota | scripts/compute_roc_from_domain_atlas.py:48 | The indices 0 … n−1 in order. |
| RocPr.Insert | scripts/compute_roc_from_domain_atlas.py:48 | Inserting an index adds exactly that index to the order. |
| RocPr.InsertAtMost | scripts/compute_roc_from_domain_atlas.py:48 | Insertion keeps every score in the order below a common bound. |
| RocPr.InsertDescending | scripts/compute_roc_from_domain_atlas.py:48 | Insertion keeps the order descending by score. |
| RocPr.SortDesc | scripts/compute_roc_from_domain_atlas.py:48 | Sorting yields a permutation of its input indices in descending score order. |
| RocPr.ArgsortDesc | scripts/compute_roc_from_domain_atlas.py:48 | The order is a permutation of 0 … N−1 with scores descending. Ties come out in descending index order. |
| RocPr.Select | scripts/compute_roc_from_domain_atlas.py:49 | `labels[order]` picks the label at each index of the order. |
| RocPr.IntSum | scripts/compute_roc_from_domain_atlas.py:44 | `labels.sum()`: the integer total of the labels. |
| RocPr.IntSumConcat | scripts/compute_roc_from_domain_atlas.py:44 | Label totals add over concatenation. |
| RocPr.SelectConcat | scripts/compute_roc_from_domain_atlas.py:49 | Selecting by concatenated orders concatenates the selections. |
| RocPr.SelectSumRemove | scripts/compute_roc_from_domain_atlas.py:49 | Removing one index from an order removes its label from the total. |
| RocPr.RemoveOne | scripts/compute_roc_from_domain_atlas.py:48 | Removing position i removes one copy of its index from the multiset. |
| RocPr.SelectSumPermutation | scripts/compute_roc_from_domain_atlas.py:44-49 | Reordering never changes the label total. |
| RocPr.SortedLabels | scripts/compute_roc_from_domain_atlas.py:48-49 | The labels in descending score order keep their number and their total P. |
| RocPr.Complement | scripts/compute_roc_from_domain_atlas.py:53 | `1 - labels` flips each label. |
| RocPr.ComplementSum | scripts/compute_roc_from_domain_atlas.py:45 | The complement sums to N − P. |
| RocPr.CumSum | scripts/compute_roc_from_domain_atlas.py:52-53 | The k-th cumulative sum is the total of the first k+1 entries. |
| RocPr.CumSumBinary | scripts/compute_roc_from_domain_atlas.py:52-53 | Over 0/1 labels, cumulative sums lie between 0 and the total and never decrease. |
| RocPr.BinarySum | scripts/compute_roc_from_domain_atlas.py:44-45 | 0/1 labels total between 0 and N, and their complement is again 0/1. |
| RocPr.PrefixSumAtMostTotal | scripts/compute_roc_from_domain_atlas.py:52 | A prefix of 0/1 labels sums to between 0 and the total. |
| RocPr.Tps | scripts/compute_roc_from_domain_atlas.py:52 | One cumulative true-positive count per threshold. |
| RocPr.Fps | scripts/compute_roc_from_domain_atlas.py:53 | One cumulative false-positive count per threshold. |
| RocPr.CountsAddUp | scripts/compute_roc_from_domain_atlas.py:52-53 | tps[k] + fps[k] = k + 1. |
| RocPr.CountsBounded | scripts/compute_roc_from_domain_atlas.py:52-53 | tps[k] is at most P and fps[k] is at most N − P; both are non-negative and never decrease. |
| RocPr.SortedLabelsBinary | scripts/compute_roc_from_domain_atlas.py:48-49 | Reordering 0/1 labels leaves them 0/1. |
| RocPr.Safe | scripts/compute_roc_from_domain_atlas.py:56-57 | The divisor is at least 1, and it equals the count when the count is positive. |
| RocPr.Tpr | scripts/compute_roc_from_domain_atlas.py:59 | One true-positive rate per threshold. |
| RocPr.Fpr | scripts/compute_roc_from_domain_atlas.py:60 | One false-positive rate per threshold. |
| RocPr.Precision | scripts/compute_roc_from_domain_atlas.py:69 | One precision per threshold. |
| RocPr.RatioInUnit | scripts/compute_roc_from_domain_atlas.py:59-60 | A count over a larger, positive divisor lies in [0, 1]. |
| RocPr.RatioMonotone | scripts/compute_roc_from_domain_atlas.py:59-60 | Dividing by the same divisor keeps the order of counts. |
| RocPr.TprAt | scripts/compute_roc_from_domain_atlas.py:56-59 | Each TPR lies in [0, 1] and never decreases along the sweep. |
| RocPr.FprAt | scripts/compute_roc_from_domain_atlas.py:56-60 | Each FPR lies in [0, 1] and never decreases along the sweep. |
| RocPr.PrecisionAt | scripts/compute_roc_from_domain_atlas.py:69 | Each precision lies in [0, 1]. |
| RocPr.RatesBounded | scripts/compute_roc_from_domain_atlas.py:56-69 | TPR and FPR lie in [0, 1] and are non-decreasing; precision lies in [0, 1]. |
| RocPr.TrapezoidTerm | scripts/compute_roc_from_domain_atlas.py:66 | One trapezoid with heights in [0, 1] has area between 0 and its width. |
| RocPr.Trapz | scripts/compute_roc_from_domain_atlas.py:66 | `np.trapz(y, x)`: the sum of the trapezoids (x[k] − x[k−1])·(y[k−1] + y[k])/2, which is 0 for fewer than two points; the same rule gives the PR area at line 80. |
| RocPr.TrapzBounds | scripts/compute_roc_from_domain_atlas.py:66-80 | For non-decreasing x and y in [0, 1], the trapezoid area lies between 0 and x_last − x_first. |
| RocPr.PrefixKeeps | scripts/compute_roc_from_domain_atlas.py:66-80 | A prefix of a curve keeps its ordering, its bounds and its endpoints. |
| RocPr.FprPoints | scripts/compute_roc_from_domain_atlas.py:63 | The ROC x-coordinates are N + 2 values from 0 to 1. |
| RocPr.TprPoints | scripts/compute_roc_from_domain_atlas.py:64 | The ROC y-coordinates are N + 2 values from 0 to 1. |
| RocPr.PrecisionPoints | scripts/compute_roc_from_domain_atlas.py:77 | The PR precisions are N + 2 values: they start at 1 and repeat the last precision at the end. |
| RocPr.ComputeRocPr | scripts/compute_roc_from_domain_atlas.py:27-91 | Different lengths and empty input are errors with the source's messages; otherwise the result is Ok. The ROC list has N + 2 points from (0, 0) to (1, 1), with (fpr[k], tpr[k]) between. The PR list starts at (recall 0, precision 1), holds (tpr[k], precision[k]) and ends at recall 1 with the last precision. Both AUCs are trapezoid sums over these points. |
| RocPr.TieOrderDecidesArea | scripts/compute_roc_from_domain_atlas.py:48-66 | For scores [0, 0] and labels [1, 0] the order is [1, 0], and the ROC area is 0: the order among equal scores changes the area. |
| RocPr.CurvesInUnitSquare | scripts/compute_roc_from_domain_atlas.py:56-91 | For 0/1 labels, every ROC and PR point lies in the unit square and ROC points never go back. Both areas lie in [0, 1]. |
| RocPr.PointListsBounded | scripts/compute_roc_from_domain_atlas.py:63-78 | The point lists with their endpoints stay in [0, 1], and the ROC coordinates are non-decreasing. |
| RocPr.RocPointsBounded | scripts/compute_roc_from_domain_atlas.py:82-85 | ROC points lie in the unit square and are ordered along the sweep. |
| RocPr.PrPointsBounded | scripts/compute_roc_from_domain_atlas.py:86-89 | PR points lie in the unit square. |
| RocPr.AreasBounded | scripts/compute_roc_from_domain_atlas.py:66-80 | Both AUCs lie in [0, 1]. |
| RocPr.Bracketed | scripts/compute_roc_from_domain_atlas.py:63-64 | Adding 0 in front and 1 at the end keeps a bounded, non-decreasing list bounded and non-decreasing. |
| RocPr.RepeatLast | scripts/compute_roc_from_domain_atlas.py:77 | Adding 1 in front and repeating the last value keeps a list in [0, 1]. |

## Left out

- Gaussian noise of the tissue step. The random generator is not modelled: the draw is a parameter of `TissueField.TissueStep` and `Tissue.Step`. The seed is not modelled.
- The PLV arithmetic (scipy `hilbert`, `np.angle`, complex exponential) is foreign numerics. It is an uninterpreted estimator function given to the detector; the model keeps the sample guard, the near-zero check and the clamp. `np.allclose(x, 0)` is modelled by its absolute tolerance 1e-8, because its relative tolerance multiplies 0.
- The per-frame correlation of the coupling estimate (norms, dot products and the 1e-9 guard) is a parameter function `corr`. Only the guard, the windowing, the mean and the clip are modelled.
- `int(round(...))` conversions from seconds to steps are integer parameters, because rounding of floats is not modelled: `windowSamples` (detector capacity), `dwellSteps`, `warmupSteps` and `windowSteps`. The `max(1, …)` and `max(0, …)` around them are modelled.
- Floating-point rounding, NaN and infinities. Arithmetic is on exact reals. The mean of an empty grid (NaN in numpy) is excluded by requiring a non-empty grid. `np.nanmean` of an all-missing window is modelled as an undefined mean. The float `%` of the actuator is `RealMod`, defined for the positive period the code guarantees at that point.
- The band-pass option and the unused `bands` field of the detector configuration do not exist in the configuration the code reads.
- Python `assert` shape checks become preconditions on the caller.
- `mismatch_threshold` of the recorder configuration is never read by the code and is not modelled. `neighbor_mismatch` ignores its V argument, as the code does.
- RocPr.ArgsortDesc: equal scores come out in descending index order. After the `[::-1]` reversal, this is the order numpy's default argsort gives when its generic implementation sorts a small array by insertion sort. Otherwise numpy leaves the order among ties unspecified, for larger arrays and for the vectorised sorts of some builds, and the model does not follow it. The counts, totals and bounds proved do not depend on tie order. The ROC and PR points inside a group of equal scores, and both areas, do depend on it. `RocPr.TieOrderDecidesArea` shows this for scores [0, 0] and labels [1, 0]: this order gives ROC area 0, and the order [0, 1] would give 1. Ties are common in practice, since healthy domains score exactly 0.
- The `precision.size == 0` branch of `compute_roc_pr` cannot be reached after the empty-input error and has no counterpart.
- Output dictionaries become datatypes (`RocPoint`, `PrPoint`, `Curves`). Broadcasting of a scalar input becomes an explicit uniform grid.
- Injury entries: a missing or None injury list behaves as the empty list. An entry's id is an integer; truncation of a float id by `int()` is not modelled. A domain slice is a rectangle with natural, non-negative ends; Python's negative or None slice bounds are not modelled.
- `experiments/run.py` (configuration loading, CSV/JSON writing, the synthetic driver), the `main()` of the ROC script, the plotting scripts and `scripts/compare_ablation.py` are input/output and plotting. They are not part of this model.
- The Hill and sigmoid helpers of `scripts/plot_phase_plane_factorH.py` are plotting code that nothing in the core calls.
- Gates.EnergyGate and Gates.OscillationGate are predicates without a separate contract: `energy_gate` is the comparison itself and `oscillation_gate` returns its input. `Gates.EnergyGateMonotone` states the energy gate's behaviour.
