/** Evaluation metrics over recorded series: recovery time, decision flicker and PLV retention. */
module Metrics {
  import opened Wrappers
  import opened Grids
  import opened MathUtils

  /** The series stays strictly below the threshold for d steps from `start`. */
  predicate RunBelow(vals: seq<real>, threshold: real, start: nat, d: nat)
  {
    start + d <= |vals| && forall k :: start <= k < start + d ==> vals[k] < threshold
  }

  /**
   * `compute_recovery_time`: the first step from which the series stays
   * below the threshold for the dwell, or None when no such run exists
   * (in particular for an empty series).
   */
  method ComputeRecoveryTime(vals: seq<real>, threshold: real, dwellSteps: int) returns (r: Option<nat>)
    ensures r.Some? ==> RunBelow(vals, threshold, r.value, AtLeastOne(dwellSteps))
    ensures r.Some? ==> forall s: nat :: s < r.value ==> !RunBelow(vals, threshold, s, AtLeastOne(dwellSteps))
    ensures r.None? <==> forall s: nat :: !RunBelow(vals, threshold, s, AtLeastOne(dwellSteps))
  {
    if vals == [] {
      return None;
    }
    var d := AtLeastOne(dwellSteps);
    var count := 0;
    for i := 0 to |vals|
      invariant count <= i && count < d
      invariant forall k :: i - count <= k < i ==> vals[k] < threshold
      invariant count < i ==> !(vals[i - 1 - count] < threshold)
      invariant forall s: nat :: s + d <= i ==> !RunBelow(vals, threshold, s, d)
    {
      var below := vals[i] < threshold;
      if !below {
        count := 0;
      } else {
        count := count + 1;
      }
      assert count < i + 1 ==> !(vals[i - count] < threshold);
      if count >= d {
        assert RunBelow(vals, threshold, i - d + 1, d);
        return Some(i - d + 1);
      }
      forall s: nat | s + d == i + 1
        ensures !RunBelow(vals, threshold, s, d)
      {
        assert s <= i - count < s + d;
      }
    }
    return None;
  }

  /** The smoke-test series (five high, four low, five high) recovers at step 5 with a dwell of 3. */
  method RecoverySmoke() returns (r: Option<nat>)
    ensures r == Some(5)
  {
    var series := [0.5, 0.5, 0.5, 0.5, 0.5, 0.08, 0.09, 0.05, 0.04, 0.2, 0.2, 0.2, 0.2, 0.2];
    assert AtLeastOne(3) == 3;
    assert RunBelow(series, 0.1, 5, 3);
    r := ComputeRecoveryTime(series, 0.1, 3);
    forall s: nat | s < 5
      ensures !RunBelow(series, 0.1, s, 3)
    {
      assert !(series[s] < 0.1);
    }
  }

  /** Number of adjacent positions whose values differ. */
  function Changes(acts: seq<int>): (n: nat)
    ensures |acts| > 0 ==> n <= |acts| - 1
    ensures n == 0 <==> forall k :: 0 < k < |acts| ==> acts[k] == acts[k - 1]
  {
    if |acts| <= 1 then 0
    else Changes(acts[..|acts| - 1]) + (if acts[|acts| - 1] != acts[|acts| - 2] then 1 else 0)
  }

  /** The actions after the warm-up; the last action alone when the warm-up covers them all. */
  function AfterWarmup(actions: seq<int>, warmupSteps: int): (acts: seq<int>)
    requires |actions| > 0
    ensures 0 < |acts| <= |actions|
    ensures 0 <= warmupSteps < |actions| ==> acts == actions[warmupSteps..]
    ensures warmupSteps < 0 ==> acts == actions
    ensures warmupSteps >= |actions| ==> acts == [actions[|actions| - 1]]
  {
    var w := if warmupSteps > 0 then warmupSteps else 0;
    if w < |actions| then actions[w..] else actions[|actions| - 1..]
  }

  /**
   * The fraction of adjacent steps whose action changed: 0 for at most one
   * action, otherwise changes / (length - 1), in [0, 1] and 0 exactly when
   * the actions are constant.
   */
  function SwitchRate(acts: seq<int>): (r: real)
    ensures 0.0 <= r <= 1.0
    ensures |acts| <= 1 ==> r == 0.0
    ensures |acts| > 1 ==> r * ((|acts| - 1) as real) == Changes(acts) as real
    ensures r == 0.0 <==> forall k :: 0 < k < |acts| ==> acts[k] == acts[k - 1]
    ensures r == 1.0 <==> |acts| > 1 && forall k :: 0 < k < |acts| ==> acts[k] != acts[k - 1]
  {
    if |acts| <= 1 then 0.0
    else
      var c, n := Changes(acts) as real, (|acts| - 1) as real;
      EveryStepChanges(acts);
      RatioFacts(c, n);
      c / n
  }

  /** The changes reach their maximum exactly when the action changes at every step. */
  lemma {:induction false} EveryStepChanges(acts: seq<int>)
    requires |acts| > 0
    ensures Changes(acts) == |acts| - 1 <==> forall k :: 0 < k < |acts| ==> acts[k] != acts[k - 1]
  {
    if |acts| > 1 {
      var p := acts[..|acts| - 1];
      EveryStepChanges(p);
      assert forall k :: 0 <= k < |p| ==> p[k] == acts[k];
    }
  }

  /**
   * `compute_flicker_rate`: the switch rate of the actions after the
   * warm-up; 0 without actions.
   */
  function FlickerRate(actions: seq<int>, warmupSteps: int): (r: real)
    ensures 0.0 <= r <= 1.0
    ensures |actions| == 0 ==> r == 0.0
    ensures |actions| > 0 ==> r == SwitchRate(AfterWarmup(actions, warmupSteps))
  {
    if actions == [] then 0.0 else SwitchRate(AfterWarmup(actions, warmupSteps))
  }

  /** A warm-up that covers every action leaves one action, hence no flicker. */
  lemma LongWarmupNoFlicker(actions: seq<int>, warmupSteps: int)
    requires warmupSteps >= |actions|
    ensures FlickerRate(actions, warmupSteps) == 0.0
  {
  }

  /** The present values, in order (`nan` stands for a missing PLV and is skipped). */
  function Present(s: seq<Option<real>>): (p: seq<real>)
    ensures |p| <= |s|
  {
    if s == [] then []
    else Present(s[..|s| - 1]) + (if s[|s| - 1].Some? then [s[|s| - 1].value] else [])
  }

  lemma {:induction false} PresentConcat(a: seq<Option<real>>, b: seq<Option<real>>)
    ensures Present(a + b) == Present(a) + Present(b)
  {
    if b == [] {
      assert a + b == a;
    } else {
      assert (a + b)[..|a + b| - 1] == a + b[..|b| - 1];
      PresentConcat(a, b[..|b| - 1]);
    }
  }

  /** `np.nanmean`: the mean of the present values, undefined when there are none. */
  function NanMean(s: seq<Option<real>>): (m: Option<real>)
    ensures m.None? <==> |Present(s)| == 0
  {
    var p := Present(s);
    if |p| == 0 then None else Some(Mean(p))
  }

  /** Missing entries do not change a window's mean. */
  lemma NanMeanSkipsMissing(a: seq<Option<real>>, b: seq<Option<real>>)
    ensures NanMean(a + [None] + b) == NanMean(a + b)
  {
    var none: seq<Option<real>> := [None];
    PresentConcat(a + none, b);
    PresentConcat(a, none);
    assert none[..0] == [];
    assert Present(none) == [];
    PresentConcat(a, b);
    assert Present(a) + Present(none) + Present(b) == Present(a) + Present(b);
    assert a + [None] + b == a + none + b;
  }

  /** A window whose entries are all the value c has mean c. */
  lemma {:induction false} ConstantWindowMean(s: seq<Option<real>>, c: real)
    requires |s| > 0
    requires forall k :: 0 <= k < |s| ==> s[k] == Some(c)
    ensures NanMean(s) == Some(c)
  {
    AllPresent(s, c);
    MeanOfConstant(Present(s), c);
  }

  lemma MeanOfConstant(p: seq<real>, c: real)
    requires |p| > 0
    requires forall k :: 0 <= k < |p| ==> p[k] == c
    ensures Mean(p) == c
  {
    SumConstant(p, c);
    var n := |p| as real;
    assert Mean(p) == (n * c) / n;
    assert (n * c) / n == c;
  }

  lemma {:induction false} AllPresent(s: seq<Option<real>>, c: real)
    requires forall k :: 0 <= k < |s| ==> s[k] == Some(c)
    ensures |Present(s)| == |s|
    ensures forall k :: 0 <= k < |s| ==> Present(s)[k] == c
  {
    if s != [] {
      AllPresent(s[..|s| - 1], c);
    }
  }

  /** Smallest first-window mean for which a retention is reported. */
  const MinStartMean: real := 0.000001

  /**
   * `compute_plv_retention`: the last window's mean PLV over the first's,
   * clipped to [0, 1]; None for an empty or too short series, a first mean
   * that is missing or at most 1e-6, or a missing last mean.
   */
  function PlvRetention(series: seq<Option<real>>, windowSteps: int): (r: Option<real>)
    ensures r.Some? ==> 0.0 <= r.value <= 1.0
    ensures r.None? <==>
      || |series| < 2 * AtLeastOne(windowSteps)
      || NanMean(series[..AtLeastOne(windowSteps)]).None?
      || NanMean(series[..AtLeastOne(windowSteps)]).value <= MinStartMean
      || NanMean(series[|series| - AtLeastOne(windowSteps)..]).None?
  {
    var w := AtLeastOne(windowSteps);
    if series == [] || |series| < 2 * w then None
    else
      var start := NanMean(series[..w]);
      var end := NanMean(series[|series| - w..]);
      if start.None? || start.value <= MinStartMean || end.None? then None
      else
        var denom := if start.value > MinStartMean then start.value else MinStartMean;
        Some(Clip(end.value / denom, 0.0, 1.0))
  }

  /** A PLV that does not drop from the first window to the last is fully retained. */
  lemma RetainedWhenNotDropping(series: seq<Option<real>>, windowSteps: int)
    requires PlvRetention(series, windowSteps).Some?
    requires NanMean(series[..AtLeastOne(windowSteps)]).value
          <= NanMean(series[|series| - AtLeastOne(windowSteps)..]).value
    ensures PlvRetention(series, windowSteps) == Some(1.0)
  {
    RetentionIsClippedRatio(series, windowSteps);
    var w := AtLeastOne(windowSteps);
    RatioAtLeastOne(NanMean(series[..w]).value, NanMean(series[|series| - w..]).value);
  }

  /** A defined retention is the clipped ratio of two defined window means, the first above 1e-6. */
  lemma RetentionIsClippedRatio(series: seq<Option<real>>, windowSteps: int)
    requires PlvRetention(series, windowSteps).Some?
    ensures var w := AtLeastOne(windowSteps);
      && |series| >= 2 * w
      && NanMean(series[..w]).Some?
      && NanMean(series[|series| - w..]).Some?
      && NanMean(series[..w]).value > MinStartMean
      && PlvRetention(series, windowSteps)
         == Some(Clip(NanMean(series[|series| - w..]).value / NanMean(series[..w]).value, 0.0, 1.0))
  {
  }

  lemma RatioAtLeastOne(a: real, b: real)
    requires 0.0 < a <= b
    ensures b / a >= 1.0
  {
  }

  /** The smoke-test series (ten at 0.5, ten at 0.8, window 5) has a defined retention, fully retained. */
  lemma RetentionSmoke()
    ensures PlvRetention(seq(10, _ => Some(0.5)) + seq(10, _ => Some(0.8)), 5) == Some(1.0)
  {
    var s := seq(10, _ => Some(0.5)) + seq(10, _ => Some(0.8));
    ConstantWindowMean(s[..5], 0.5);
    ConstantWindowMean(s[15..], 0.8);
    RetainedWhenNotDropping(s, 5);
  }
}
