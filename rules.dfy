/**
 * The rules decoder: REST (0), REPAIR (1) and PRUNE (2) scored by the
 * fraction of their rule conditions that hold, the winner taken with a
 * hysteresis margin and a dwell (hold) countdown, and PRUNE gated by a
 * strict dwell on its own evidence.
 */
module Decoder {
  import opened Wrappers
  import opened MathUtils

  type Action = a: nat | a < 3

  const Rest: Action := 0
  const Repair: Action := 1
  const Prune: Action := 2

  datatype Thresholds = Thresholds(
    lowOccThreshold: real, energyOk: real, mismatchOk: real, healthyPlvMin: real,
    globalVOffsetMV: real, domainLowFraction: real,
    pruneEnabled: bool, pruneLowOccThreshold: real, pruneEnergyMax: real,
    pruneMismatchMin: real, pruneDwellSteps: int)

  datatype Stability = Stability(hysteresisMargin: real, decisionDwell: int)

  /** The features of one decision: occupancy, mismatch, energy, PLV (maybe missing) and context. */
  datatype Features = Features(
    lowOcc: real, mismatch: real, e: real, plv: Option<real>,
    globalVOffsetMV: real, domainLowFraction: real)

  /** Number of true conditions. */
  function CountTrue(conds: seq<bool>): (n: nat)
    ensures n <= |conds|
    ensures n == 0 <==> forall k :: 0 <= k < |conds| ==> !conds[k]
    ensures n == |conds| <==> forall k :: 0 <= k < |conds| ==> conds[k]
  {
    if conds == [] then 0
    else CountTrue(conds[..|conds| - 1]) + (if conds[|conds| - 1] then 1 else 0)
  }

  /** The fraction of conditions that hold: in [0, 1], 0 exactly when none holds, 1 exactly when all hold. */
  function Fraction(conds: seq<bool>): (r: real)
    requires |conds| > 0
    ensures 0.0 <= r <= 1.0
    ensures r * (|conds| as real) == CountTrue(conds) as real
    ensures r == 0.0 <==> forall k :: 0 <= k < |conds| ==> !conds[k]
    ensures r == 1.0 <==> forall k :: 0 <= k < |conds| ==> conds[k]
  {
    var c, n := CountTrue(conds) as real, |conds| as real;
    RatioFacts(c, n);
    c / n
  }

  /** A missing PLV counts as healthy for REST and as not bad for REPAIR: healthy is exactly not bad. */
  predicate PlvOk(th: Thresholds, f: Features): (ok: bool)
    ensures ok <==> !PlvBad(th, f)
  {
    f.plv.None? || f.plv.value >= th.healthyPlvMin
  }

  /** A PLV below the healthy minimum; a missing PLV is never bad. */
  predicate PlvBad(th: Thresholds, f: Features): (bad: bool)
    ensures bad ==> f.plv.Some?
  {
    f.plv.Some? && f.plv.value < th.healthyPlvMin
  }

  /** The five REPAIR conditions, the last one being "offset high or domain LOW fraction high". */
  function RepairConditions(th: Thresholds, f: Features): (c: seq<bool>)
    ensures |c| == 5
  {
    [ f.lowOcc >= th.lowOccThreshold,
      f.mismatch <= th.mismatchOk,
      f.e >= th.energyOk,
      PlvBad(th, f),
      f.globalVOffsetMV >= th.globalVOffsetMV || f.domainLowFraction >= th.domainLowFraction ]
  }

  /** The three REST conditions. */
  function RestConditions(th: Thresholds, f: Features): (c: seq<bool>)
    ensures |c| == 3
  {
    [ PlvOk(th, f), f.lowOcc < th.lowOccThreshold, f.mismatch > th.mismatchOk ]
  }

  /** Strict PRUNE evidence for one frame; with PRUNE disabled no frame qualifies. */
  predicate PruneCond(th: Thresholds, f: Features): (c: bool)
    ensures c ==> th.pruneEnabled
    ensures th.pruneEnabled ==> (c <==> f.lowOcc >= th.pruneLowOccThreshold && f.e <= th.pruneEnergyMax
                                          && f.mismatch >= th.pruneMismatchMin)
  {
    th.pruneEnabled && f.lowOcc >= th.pruneLowOccThreshold && f.e <= th.pruneEnergyMax
    && f.mismatch >= th.pruneMismatchMin
  }

  /** The strict PRUNE dwell, never below one step. */
  function PruneDwell(th: Thresholds): (d: nat)
    ensures d >= 1 && d >= th.pruneDwellSteps
    ensures d == th.pruneDwellSteps || d == 1
  {
    AtLeastOne(th.pruneDwellSteps)
  }

  /**
   * `_scores`: (rest, repair, prune), each in [0, 1]. REST and REPAIR are
   * the fractions of their conditions that hold; PRUNE is 1 exactly when
   * prune is enabled, this frame qualifies and the evidence has lasted the
   * strict dwell, and 0 otherwise.
   */
  function Scores(th: Thresholds, f: Features, pruneCond: bool, pruneSteps: nat): (s: seq<real>)
    ensures |s| == 3
    ensures forall k :: 0 <= k < 3 ==> 0.0 <= s[k] <= 1.0
    ensures 3.0 * s[Rest] == CountTrue(RestConditions(th, f)) as real
    ensures 5.0 * s[Repair] == CountTrue(RepairConditions(th, f)) as real
    ensures s[Rest] == 1.0 <==> PlvOk(th, f) && f.lowOcc < th.lowOccThreshold && f.mismatch > th.mismatchOk
    ensures s[Prune] == 0.0 || s[Prune] == 1.0
    ensures s[Prune] == 1.0 <==> th.pruneEnabled && pruneCond && pruneSteps >= PruneDwell(th)
  {
    var rest := Fraction(RestConditions(th, f));
    var repair := Fraction(RepairConditions(th, f));
    var prune := if th.pruneEnabled && pruneCond && pruneSteps >= PruneDwell(th) then 1.0 else 0.0;
    assert forall k :: 0 <= k < 3 ==> RestConditions(th, f)[k] == [PlvOk(th, f), f.lowOcc < th.lowOccThreshold, f.mismatch > th.mismatchOk][k];
    [Clip(rest, 0.0, 1.0), Clip(repair, 0.0, 1.0), Clip(prune, 0.0, 1.0)]
  }

  /** The first index of a maximum, as `max(range(n), key=...)` picks it. */
  function Argmax(s: seq<real>): (k: nat)
    requires |s| > 0
    ensures k < |s|
    ensures forall j :: 0 <= j < |s| ==> s[j] <= s[k]
    ensures forall j :: 0 <= j < k ==> s[j] < s[k]
  {
    if |s| == 1 then 0
    else
      var k := Argmax(s[..|s| - 1]);
      if s[|s| - 1] > s[k] then |s| - 1 else k
  }

  /** The decoder's memory: the last action, the hold countdown and the PRUNE evidence counter. */
  datatype DecoderState = DecoderState(lastAction: Action, hold: nat, pruneSteps: nat)

  const Initial := DecoderState(Rest, 0, 0)

  datatype Decision = Decision(state: DecoderState, action: Action)

  /** The hold counter after the per-call countdown. */
  function Tick(hold: nat): (r: nat)
    ensures hold > 0 ==> r + 1 == hold
    ensures hold == 0 ==> r == 0
  {
    if hold > 0 then hold - 1 else 0
  }

  /** The PRUNE evidence counter after one frame: one more while frames qualify, else back to 0. */
  function NextPruneSteps(th: Thresholds, f: Features, pruneSteps: nat): (r: nat)
    ensures PruneCond(th, f) ==> r == pruneSteps + 1
    ensures !PruneCond(th, f) ==> r == 0
  {
    if th.pruneEnabled then (if PruneCond(th, f) then pruneSteps + 1 else 0) else 0
  }

  /** The dwell installed by an accepted switch, never negative. */
  function DwellSteps(st: Stability): (d: nat)
    ensures d >= st.decisionDwell
    ensures st.decisionDwell >= 0 ==> d == st.decisionDwell
    ensures st.decisionDwell < 0 ==> d == 0
  {
    if st.decisionDwell > 0 then st.decisionDwell else 0
  }

  /**
   * `decide`: count the hold down, update the PRUNE evidence, propose the
   * first highest score, and switch to it only when no hold is pending and
   * its score beats the current action's by more than the margin; a switch
   * restarts the hold at the dwell.
   */
  function NextDecision(th: Thresholds, st: Stability, s: DecoderState, f: Features): (d: Decision)
    ensures d.action == d.state.lastAction
    ensures d.state.pruneSteps == NextPruneSteps(th, f, s.pruneSteps)
    ensures d.action != s.lastAction ==>
      && Tick(s.hold) == 0
      && d.action == Argmax(Scores(th, f, PruneCond(th, f), d.state.pruneSteps))
      && Scores(th, f, PruneCond(th, f), d.state.pruneSteps)[d.action]
         - Scores(th, f, PruneCond(th, f), d.state.pruneSteps)[s.lastAction] > st.hysteresisMargin
      && d.state.hold == DwellSteps(st)
    ensures d.action == s.lastAction ==> d.state.hold == Tick(s.hold)
    ensures Tick(s.hold) > 0 ==> d.action == s.lastAction
    ensures var sc := Scores(th, f, PruneCond(th, f), NextPruneSteps(th, f, s.pruneSteps));
      Tick(s.hold) == 0 && Argmax(sc) != s.lastAction && sc[Argmax(sc)] - sc[s.lastAction] > st.hysteresisMargin
      ==> d.action == Argmax(sc) && d.state.hold == DwellSteps(st)
  {
    var hold := Tick(s.hold);
    var prune := NextPruneSteps(th, f, s.pruneSteps);
    var scores := Scores(th, f, PruneCond(th, f), prune);
    var proposed: Action := Argmax(scores);
    var current := s.lastAction;
    if proposed != current && hold == 0 && scores[proposed] - scores[current] > st.hysteresisMargin then
      Decision(DecoderState(proposed, DwellSteps(st), prune), proposed)
    else
      Decision(DecoderState(current, hold, prune), current)
  }

  /** Switching into PRUNE happens only on a frame whose strict evidence has lasted the PRUNE dwell. */
  lemma PruneEnteredOnlyAfterDwell(th: Thresholds, st: Stability, s: DecoderState, f: Features)
    requires s.lastAction != Prune
    requires NextDecision(th, st, s, f).action == Prune
    ensures th.pruneEnabled && PruneCond(th, f)
    ensures NextDecision(th, st, s, f).state.pruneSteps >= PruneDwell(th)
  {
    var d := NextDecision(th, st, s, f);
    var scores := Scores(th, f, PruneCond(th, f), d.state.pruneSteps);
    assert scores[Rest] < scores[Prune];
  }

  /** One call of a run: the thresholds and stability in force, and the frame's features. */
  datatype Call = Call(th: Thresholds, st: Stability, f: Features)

  /** The state after a run of calls from `s0`. */
  function Run(s0: DecoderState, calls: seq<Call>): DecoderState
  {
    if calls == [] then s0
    else
      var c := calls[|calls| - 1];
      NextDecision(c.th, c.st, Run(s0, calls[..|calls| - 1]), c.f).state
  }

  /** While a hold is pending, a run shorter than it keeps the action and counts the hold down one per call. */
  lemma {:induction false} HoldBlocksSwitches(s0: DecoderState, calls: seq<Call>)
    requires |calls| < s0.hold
    ensures Run(s0, calls).lastAction == s0.lastAction
    ensures Run(s0, calls).hold == s0.hold - |calls|
  {
    if calls != [] {
      HoldBlocksSwitches(s0, calls[..|calls| - 1]);
    }
  }

  /**
   * Once the hold has run out, a clearly better proposal is taken: from a
   * state whose hold lasts `Tick(s0.hold)` more calls, those calls keep the
   * action, and the next call switches to its proposal when that beats the
   * current action by more than the margin, restarting the hold at the dwell.
   */
  lemma SwitchOnceHoldExpires(s0: DecoderState, calls: seq<Call>, c: Call)
    requires |calls| == Tick(s0.hold)
    requires var sc := Scores(c.th, c.f, PruneCond(c.th, c.f), NextPruneSteps(c.th, c.f, Run(s0, calls).pruneSteps));
      Argmax(sc) != s0.lastAction && sc[Argmax(sc)] - sc[s0.lastAction] > c.st.hysteresisMargin
    ensures var sc := Scores(c.th, c.f, PruneCond(c.th, c.f), NextPruneSteps(c.th, c.f, Run(s0, calls).pruneSteps));
      && Run(s0, calls + [c]).lastAction == Argmax(sc)
      && Run(s0, calls + [c]).hold == DwellSteps(c.st)
  {
    var s := Run(s0, calls);
    if s0.hold > 0 {
      HoldBlocksSwitches(s0, calls);
    }
    assert s.lastAction == s0.lastAction && Tick(s.hold) == 0;
    assert (calls + [c])[..|calls|] == calls;
  }

  /** Whether a call counts as PRUNE evidence. */
  predicate Qualifies(c: Call)
  {
    PruneCond(c.th, c.f)
  }

  /** Length of the trailing run of qualifying calls. */
  function TrailingQualifying(calls: seq<Call>): (n: nat)
    ensures n <= |calls|
  {
    if calls == [] || !Qualifies(calls[|calls| - 1]) then 0
    else TrailingQualifying(calls[..|calls| - 1]) + 1
  }

  /**
   * The PRUNE evidence counter is the length of the trailing run of
   * qualifying frames (continuing the initial count when every frame
   * qualifies).
   */
  lemma {:induction false} PruneCounterIsTrailingRun(s0: DecoderState, calls: seq<Call>)
    ensures Run(s0, calls).pruneSteps
      == if TrailingQualifying(calls) == |calls| then s0.pruneSteps + |calls| else TrailingQualifying(calls)
  {
    if calls != [] {
      PruneCounterIsTrailingRun(s0, calls[..|calls| - 1]);
    }
  }

  /** `RulesDecoder`: thresholds and stability the caller may replace, and the decoder's memory. */
  class RulesDecoder {
    var th: Thresholds
    var st: Stability
    var lastAction: Action
    var holdSteps: nat
    var pruneSteps: nat

    function State(): (s: DecoderState)
      reads this
      ensures s.lastAction == lastAction && s.hold == holdSteps && s.pruneSteps == pruneSteps
    {
      DecoderState(lastAction, holdSteps, pruneSteps)
    }

    constructor (th: Thresholds, st: Stability)
      ensures this.th == th && this.st == st && State() == Initial
    {
      this.th, this.st := th, st;
      lastAction, holdSteps, pruneSteps := Rest, 0, 0;
    }

    /** Replace the thresholds, as a caller does between decisions. */
    method SetThresholds(th: Thresholds)
      modifies this`th
      ensures this.th == th
    {
      this.th := th;
    }

    /** `decide`: one decision, the memory advanced as `NextDecision` says. */
    method Decide(f: Features) returns (a: Action)
      modifies this`lastAction, this`holdSteps, this`pruneSteps
      ensures State() == NextDecision(th, st, old(State()), f).state
      ensures a == NextDecision(th, st, old(State()), f).action
    {
      holdSteps := Tick(holdSteps);
      var pc := PruneCond(th, f);
      pruneSteps := NextPruneSteps(th, f, pruneSteps);
      var scores := Scores(th, f, pc, pruneSteps);
      var proposed: Action := Argmax(scores);
      var current := lastAction;
      if proposed != current {
        if holdSteps > 0 {
          return current;
        }
        var margin := scores[proposed] - scores[current];
        if margin <= st.hysteresisMargin {
          return current;
        }
        lastAction := proposed;
        holdSteps := DwellSteps(st);
        return proposed;
      }
      return current;
    }
  }

  // Settings and frames of the two decoder scenarios.
  const ScenarioTh := Thresholds(0.3, 0.3, 0.3, 0.5, 10.0, 0.4, false, 0.85, 0.2, 0.6, 200)
  const ScenarioTh2 := ScenarioTh.(healthyPlvMin := 0.9)
  const ScenarioSt := Stability(0.2, 5)
  const WeakRest := Features(0.1, 0.9, 0.5, Some(0.9), 0.0, 0.1)
  const NearRest := Features(0.2, 0.5, 0.2, Some(0.51), 0.0, 0.1)
  const StrongRepair := Features(0.9, 0.1, 0.9, Some(0.0), 20.0, 0.7)
  const StrongRest := Features(0.0, 1.0, 1.0, Some(1.0), 0.0, 0.0)
  const PruneTh := Thresholds(0.3, 0.3, 0.3, 0.5, 10.0, 0.4, true, 0.9, 0.2, 0.7, 5)
  const PruneSt := Stability(0.05, 1)
  const PruneFrame := Features(0.95, 0.8, 0.1, Some(0.1), 0.0, 0.9)

  lemma CountTrueOfThree(c: seq<bool>)
    requires |c| == 3
    ensures CountTrue(c) == (if c[0] then 1 else 0) + (if c[1] then 1 else 0) + (if c[2] then 1 else 0)
  {
    assert c[..2][..1] == [c[0]];
  }

  lemma CountTrueOfFive(c: seq<bool>)
    requires |c| == 5
    ensures CountTrue(c) == (if c[0] then 1 else 0) + (if c[1] then 1 else 0) + (if c[2] then 1 else 0)
                          + (if c[3] then 1 else 0) + (if c[4] then 1 else 0)
  {
    CountTrueOfThree(c[..3]);
    assert c[..4][..3] == c[..3];
  }

  /** First frame: REST everywhere, REST kept. */
  lemma WeakRestKeepsRest()
    ensures NextDecision(ScenarioTh, ScenarioSt, Initial, WeakRest) == Decision(Initial, Rest)
  {
    CountTrueOfThree(RestConditions(ScenarioTh, WeakRest));
    CountTrueOfFive(RepairConditions(ScenarioTh, WeakRest));
  }

  /** Second frame: REST still wins, REST kept. */
  lemma NearRestKeepsRest()
    ensures NextDecision(ScenarioTh, ScenarioSt, Initial, NearRest) == Decision(Initial, Rest)
  {
    CountTrueOfThree(RestConditions(ScenarioTh, NearRest));
    CountTrueOfFive(RepairConditions(ScenarioTh, NearRest));
  }

  /** Third frame, under the replaced thresholds: REPAIR wins by 1 and is accepted with a hold of 5. */
  lemma StrongRepairSwitches()
    ensures NextDecision(ScenarioTh2, ScenarioSt, Initial, StrongRepair) == Decision(DecoderState(Repair, 5, 0), Repair)
  {
    CountTrueOfThree(RestConditions(ScenarioTh2, StrongRepair));
    CountTrueOfFive(RepairConditions(ScenarioTh2, StrongRepair));
  }

  /** A strong REST frame scores REST 1 and REPAIR 1/5, so it proposes REST by a margin of 4/5. */
  lemma StrongRestScores(prune: nat)
    ensures Scores(ScenarioTh2, StrongRest, false, prune) == [1.0, 0.2, 0.0]
  {
    CountTrueOfThree(RestConditions(ScenarioTh2, StrongRest));
    CountTrueOfFive(RepairConditions(ScenarioTh2, StrongRest));
  }

  /** A strong REST frame while REPAIR holds: blocked while the hold lasts, accepted once it runs out. */
  lemma StrongRestUnderHold(hold: nat)
    requires 1 <= hold <= 5
    ensures NextDecision(ScenarioTh2, ScenarioSt, DecoderState(Repair, hold, 0), StrongRest)
         == if hold > 1 then Decision(DecoderState(Repair, hold - 1, 0), Repair)
            else Decision(DecoderState(Rest, 5, 0), Rest)
  {
    StrongRestScores(0);
  }

  /** The PRUNE frame's REST and REPAIR scores (1/3 and 3/5). */
  lemma PruneFrameScores(prune: nat)
    ensures Scores(PruneTh, PruneFrame, true, prune)[..2] == [1.0 / 3.0, 0.6]
  {
    CountTrueOfThree(RestConditions(PruneTh, PruneFrame));
    CountTrueOfFive(RepairConditions(PruneTh, PruneFrame));
  }

  /** The decoder's memory after k PRUNE frames of the strict-PRUNE scenario. */
  function PruneScenarioState(k: nat): DecoderState
  {
    if k == 0 then Initial
    else if k <= 4 then DecoderState(Repair, if k == 1 then 1 else 0, k)
    else DecoderState(Prune, if k == 5 then 1 else 0, k)
  }

  /** The k-th PRUNE frame (k from 0): REPAIR is taken first, PRUNE once the evidence has lasted 5 frames. */
  lemma PruneFrameStep(k: nat)
    requires k < 6
    ensures NextDecision(PruneTh, PruneSt, PruneScenarioState(k), PruneFrame)
         == Decision(PruneScenarioState(k + 1), if k < 4 then Repair else Prune)
  {
    PruneFrameScores(k + 1);
  }

  /**
   * The dwell-and-hysteresis scenario: REST is kept against a weak
   * proposal, a strong REPAIR proposal under replaced thresholds is
   * accepted, the next four strong REST proposals are held off by the dwell
   * of 5, and the fifth is accepted.
   */
  method DwellHysteresisScenario() returns (acts: seq<Action>)
    ensures acts == [Rest, Rest, Repair, Repair, Repair, Repair, Repair, Rest]
  {
    var dec := new RulesDecoder(ScenarioTh, ScenarioSt);
    var opening := DwellOpening(dec);
    var held := DwellHold(dec);
    acts := opening + held;
  }

  /** The first three decisions of the dwell scenario: REST, REST, then REPAIR under the replaced thresholds. */
  method DwellOpening(dec: RulesDecoder) returns (acts: seq<Action>)
    requires dec.th == ScenarioTh && dec.st == ScenarioSt && dec.State() == Initial
    modifies dec
    ensures acts == [Rest, Rest, Repair]
    ensures dec.th == ScenarioTh2 && dec.st == ScenarioSt && dec.State() == DecoderState(Repair, 5, 0)
  {
    WeakRestKeepsRest();
    var a0 := dec.Decide(WeakRest);
    NearRestKeepsRest();
    var a1 := dec.Decide(NearRest);
    dec.SetThresholds(ScenarioTh2);
    StrongRepairSwitches();
    var a2 := dec.Decide(StrongRepair);
    acts := [a0, a1, a2];
  }

  /** The last five decisions of the dwell scenario: four strong REST frames held off, the fifth accepted. */
  method DwellHold(dec: RulesDecoder) returns (acts: seq<Action>)
    requires dec.th == ScenarioTh2 && dec.st == ScenarioSt && dec.State() == DecoderState(Repair, 5, 0)
    modifies dec
    ensures acts == [Repair, Repair, Repair, Repair, Rest]
  {
    acts := [];
    for k := 0 to 4
      invariant acts == seq(k, _ => Repair)
      invariant dec.th == ScenarioTh2 && dec.st == ScenarioSt
      invariant dec.State() == DecoderState(Repair, 5 - k, 0)
    {
      StrongRestUnderHold(5 - k);
      var a := dec.Decide(StrongRest);
      acts := acts + [a];
    }
    StrongRestUnderHold(1);
    var a := dec.Decide(StrongRest);
    acts := acts + [a];
  }

  /**
   * The strict-PRUNE scenario: six frames meeting the PRUNE conditions with
   * a PRUNE dwell of 5 end in PRUNE (REPAIR is chosen first, PRUNE from the
   * fifth frame on).
   */
  method PruneStrictScenario() returns (acts: seq<Action>)
    ensures |acts| == 6 && acts[5] == Prune
    ensures acts == [Repair, Repair, Repair, Repair, Prune, Prune]
  {
    var dec := new RulesDecoder(PruneTh, PruneSt);
    acts := [];
    for k := 0 to 6
      invariant |acts| == k && dec.th == PruneTh && dec.st == PruneSt
      invariant dec.State() == PruneScenarioState(k)
      invariant forall j :: 0 <= j < k ==> acts[j] == if j < 4 then Repair else Prune
    {
      var a := PruneScenarioStep(dec, k);
      acts := acts + [a];
    }
  }

  /** The k-th decision of the strict-PRUNE scenario. */
  method PruneScenarioStep(dec: RulesDecoder, k: nat) returns (a: Action)
    requires k < 6 && dec.th == PruneTh && dec.st == PruneSt && dec.State() == PruneScenarioState(k)
    modifies dec
    ensures dec.th == PruneTh && dec.st == PruneSt && dec.State() == PruneScenarioState(k + 1)
    ensures a == if k < 4 then Repair else Prune
  {
    PruneFrameStep(k);
    a := dec.Decide(PruneFrame);
  }
}
