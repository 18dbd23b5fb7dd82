/**
 * ROC and precision-recall curves from detection scores and binary labels:
 * the labels taken in descending score order, cumulative true and false
 * positive counts, rates with division-by-zero guards, and trapezoid areas.
 */
module RocPr {
  import opened Wrappers

  /** The indices 0 .. n-1 in order. */
  function Iota(n: nat): (r: seq<nat>)
    ensures |r| == n && forall k :: 0 <= k < n ==> r[k] == k
  {
    seq(n, k requires 0 <= k < n => k)
  }

  predicate InRange(idx: seq<nat>, n: nat)
  {
    forall k :: 0 <= k < |idx| ==> idx[k] < n
  }

  /** The indexed scores never increase along the order. */
  predicate Descending(scores: seq<real>, order: seq<nat>)
    requires InRange(order, |scores|)
  {
    forall i, j :: 0 <= i < j < |order| ==> scores[order[i]] >= scores[order[j]]
  }

  /** Insert index x into a descending order, before the first index whose score is below x's (after its ties). */
  function Insert(scores: seq<real>, x: nat, sorted: seq<nat>): (r: seq<nat>)
    requires x < |scores| && InRange(sorted, |scores|)
    ensures |r| == |sorted| + 1 && InRange(r, |scores|)
    ensures multiset(r) == multiset(sorted) + multiset{x}
  {
    if sorted == [] then [x]
    else if scores[x] > scores[sorted[0]] then [x] + sorted
    else
      assert sorted == [sorted[0]] + sorted[1..];
      [sorted[0]] + Insert(scores, x, sorted[1..])
  }

  /** Every score in the order is at most b. */
  predicate AllAtMost(scores: seq<real>, order: seq<nat>, b: real)
    requires InRange(order, |scores|)
  {
    forall k :: 0 <= k < |order| ==> scores[order[k]] <= b
  }

  /** Insertion keeps a common upper bound. */
  lemma {:induction false} InsertAtMost(scores: seq<real>, x: nat, sorted: seq<nat>, b: real)
    requires x < |scores| && InRange(sorted, |scores|)
    requires AllAtMost(scores, sorted, b) && scores[x] <= b
    ensures AllAtMost(scores, Insert(scores, x, sorted), b)
  {
    if sorted != [] && scores[x] <= scores[sorted[0]] {
      InsertAtMost(scores, x, sorted[1..], b);
    }
  }

  /** Insertion keeps the order descending. */
  lemma {:induction false} InsertDescending(scores: seq<real>, x: nat, sorted: seq<nat>)
    requires x < |scores| && InRange(sorted, |scores|) && Descending(scores, sorted)
    ensures Descending(scores, Insert(scores, x, sorted))
  {
    if sorted != [] {
      var h := sorted[0];
      if scores[x] > scores[h] {
        var r := [x] + sorted;
        forall i, j | 0 <= i < j < |r|
          ensures scores[r[i]] >= scores[r[j]]
        {
          if i == 0 {
            assert r[j] == sorted[j - 1];
            assert scores[h] >= scores[sorted[j - 1]] || j - 1 == 0;
          }
        }
      } else {
        var tail := sorted[1..];
        InsertDescending(scores, x, tail);
        assert AllAtMost(scores, tail, scores[h]);
        InsertAtMost(scores, x, tail, scores[h]);
        var rest := Insert(scores, x, tail);
        var r := [h] + rest;
        forall i, j | 0 <= i < j < |r|
          ensures scores[r[i]] >= scores[r[j]]
        {
          if i == 0 {
            assert r[j] == rest[j - 1];
          } else {
            assert r[i] == rest[i - 1] && r[j] == rest[j - 1];
          }
        }
      }
    }
  }

  /** Insertion sort of indices by descending score. */
  function SortDesc(scores: seq<real>, idx: seq<nat>): (r: seq<nat>)
    requires InRange(idx, |scores|)
    ensures |r| == |idx| && InRange(r, |scores|)
    ensures multiset(r) == multiset(idx)
    ensures Descending(scores, r)
  {
    if idx == [] then []
    else
      assert idx == [idx[0]] + idx[1..];
      var tail := SortDesc(scores, idx[1..]);
      InsertDescending(scores, idx[0], tail);
      Insert(scores, idx[0], tail)
  }

  /**
   * `np.argsort(scores)[::-1]`: a permutation of the indices along which the
   * scores never increase; equal scores come out in descending index order,
   * as numpy's insertion sort for small arrays leaves them after the reversal.
   */
  function ArgsortDesc(scores: seq<real>): (order: seq<nat>)
    ensures |order| == |scores| && InRange(order, |scores|)
    ensures multiset(order) == multiset(Iota(|scores|))
    ensures Descending(scores, order)
  {
    SortDesc(scores, Iota(|scores|))
  }

  /** `labels[idx]`. */
  function Select(labels: seq<int>, idx: seq<nat>): (r: seq<int>)
    requires InRange(idx, |labels|)
    ensures |r| == |idx| && forall k :: 0 <= k < |idx| ==> r[k] == labels[idx[k]]
  {
    seq(|idx|, k requires 0 <= k < |idx| => labels[idx[k]])
  }

  function IntSum(s: seq<int>): int
  {
    if s == [] then 0 else IntSum(s[..|s| - 1]) + s[|s| - 1]
  }

  lemma {:induction false} IntSumConcat(a: seq<int>, b: seq<int>)
    ensures IntSum(a + b) == IntSum(a) + IntSum(b)
  {
    if b == [] {
      assert a + b == a;
    } else {
      assert (a + b)[..|a + b| - 1] == a + b[..|b| - 1];
      IntSumConcat(a, b[..|b| - 1]);
    }
  }

  lemma SelectConcat(labels: seq<int>, u: seq<nat>, v: seq<nat>)
    requires InRange(u, |labels|) && InRange(v, |labels|)
    ensures InRange(u + v, |labels|)
    ensures Select(labels, u + v) == Select(labels, u) + Select(labels, v)
  {
  }

  /** Removing one index from a selection removes its label from the sum. */
  lemma SelectSumRemove(labels: seq<int>, b: seq<nat>, i: nat)
    requires InRange(b, |labels|) && i < |b|
    ensures InRange(b[..i] + b[i + 1..], |labels|)
    ensures IntSum(Select(labels, b)) == IntSum(Select(labels, b[..i] + b[i + 1..])) + labels[b[i]]
  {
    var u, v := b[..i], b[i + 1..];
    assert b == u + [b[i]] + v;
    SelectConcat(labels, u + [b[i]], v);
    SelectConcat(labels, u, [b[i]]);
    SelectConcat(labels, u, v);
    var su, sv := Select(labels, u), Select(labels, v);
    assert Select(labels, [b[i]]) == [labels[b[i]]];
    assert Select(labels, b) == su + [labels[b[i]]] + sv;
    IntSumConcat(su + [labels[b[i]]], sv);
    IntSumConcat(su, [labels[b[i]]]);
    IntSumConcat(su, sv);
    assert IntSum([labels[b[i]]]) == labels[b[i]] by {
      assert [labels[b[i]]][..0] == [];
    }
  }

  lemma RemoveOne(b: seq<nat>, i: nat)
    requires i < |b|
    ensures multiset(b[..i] + b[i + 1..]) == multiset(b) - multiset{b[i]}
  {
    assert b == b[..i] + [b[i]] + b[i + 1..];
  }

  /** Selecting by two index sequences holding the same indices gives the same sum. */
  lemma {:induction false} SelectSumPermutation(labels: seq<int>, a: seq<nat>, b: seq<nat>)
    requires InRange(a, |labels|) && InRange(b, |labels|)
    requires multiset(a) == multiset(b)
    ensures IntSum(Select(labels, a)) == IntSum(Select(labels, b))
  {
    if a == [] {
      assert |multiset(b)| == 0;
    } else {
      var n := |a| - 1;
      var x := a[n];
      assert x in multiset(b);
      var i :| 0 <= i < |b| && b[i] == x;
      SelectSumRemove(labels, b, i);
      SelectSumRemove(labels, a, n);
      RemoveOne(a, n);
      RemoveOne(b, i);
      assert a[..n] + a[n + 1..] == a[..n];
      SelectSumPermutation(labels, a[..n], b[..i] + b[i + 1..]);
    }
  }

  /** The labels in descending score order. */
  function SortedLabels(scores: seq<real>, labels: seq<int>): (s: seq<int>)
    requires |scores| == |labels|
    ensures |s| == |labels|
    ensures IntSum(s) == IntSum(labels)
  {
    var order := ArgsortDesc(scores);
    SelectSumPermutation(labels, order, Iota(|labels|));
    assert Select(labels, Iota(|labels|)) == labels;
    Select(labels, order)
  }

  /** `1 - labels`. */
  function Complement(s: seq<int>): (r: seq<int>)
    ensures |r| == |s| && forall k :: 0 <= k < |s| ==> r[k] == 1 - s[k]
  {
    seq(|s|, k requires 0 <= k < |s| => 1 - s[k])
  }

  /** The complement's sum is the length minus the sum. */
  lemma {:induction false} ComplementSum(s: seq<int>)
    ensures IntSum(Complement(s)) == |s| - IntSum(s)
  {
    if s != [] {
      var n := |s| - 1;
      ComplementSum(s[..n]);
      assert Complement(s)[..n] == Complement(s[..n]);
    }
  }

  /** `np.cumsum`: entry k is the sum of the first k + 1 values. */
  function CumSum(s: seq<int>): (r: seq<int>)
    ensures |r| == |s| && forall k :: 0 <= k < |s| ==> r[k] == IntSum(s[..k + 1])
  {
    seq(|s|, k requires 0 <= k < |s| => IntSum(s[..k + 1]))
  }

  /** The running sums of a 0/1 sequence never decrease and stay between 0 and the total. */
  lemma CumSumBinary(s: seq<int>, k: nat)
    requires Binary(s) && k < |s|
    ensures 0 <= CumSum(s)[k] <= IntSum(s)
    ensures k + 1 < |s| ==> CumSum(s)[k] <= CumSum(s)[k + 1]
  {
    PrefixSumAtMostTotal(s, k + 1);
    if k + 1 < |s| {
      assert s[..k + 2] == s[..k + 1] + [s[k + 1]];
      IntSumConcat(s[..k + 1], [s[k + 1]]);
      assert IntSum([s[k + 1]]) == s[k + 1] by {
        assert [s[k + 1]][..0] == [];
      }
    }
  }

  /** Every label is 0 or 1. */
  predicate Binary(labels: seq<int>)
  {
    forall k :: 0 <= k < |labels| ==> labels[k] == 0 || labels[k] == 1
  }

  /** A 0/1 sequence sums to between 0 and its length, and so does its complement. */
  lemma {:induction false} BinarySum(s: seq<int>)
    requires Binary(s)
    ensures 0 <= IntSum(s) <= |s|
    ensures Binary(Complement(s))
  {
    if s != [] {
      BinarySum(s[..|s| - 1]);
    }
  }

  /** A prefix of a 0/1 sequence sums to no more than the whole. */
  lemma PrefixSumAtMostTotal(s: seq<int>, k: nat)
    requires Binary(s) && k <= |s|
    ensures 0 <= IntSum(s[..k]) <= IntSum(s)
  {
    assert s == s[..k] + s[k..];
    IntSumConcat(s[..k], s[k..]);
    BinarySum(s[..k]);
    BinarySum(s[k..]);
  }

  /** `tps`: the positives among the k + 1 highest-scored entries. */
  function Tps(scores: seq<real>, labels: seq<int>): (t: seq<int>)
    requires |scores| == |labels|
    ensures |t| == |labels|
  {
    CumSum(SortedLabels(scores, labels))
  }

  /** `fps`: the negatives among the k + 1 highest-scored entries. */
  function Fps(scores: seq<real>, labels: seq<int>): (f: seq<int>)
    requires |scores| == |labels|
    ensures |f| == |labels|
  {
    CumSum(Complement(SortedLabels(scores, labels)))
  }

  /** Each threshold step admits exactly one more entry: tps[k] + fps[k] == k + 1. */
  lemma CountsAddUp(scores: seq<real>, labels: seq<int>, k: nat)
    requires |scores| == |labels| && k < |labels|
    ensures Tps(scores, labels)[k] + Fps(scores, labels)[k] == k + 1
  {
    var sl := SortedLabels(scores, labels);
    assert Complement(sl)[..k + 1] == Complement(sl[..k + 1]);
    ComplementSum(sl[..k + 1]);
  }

  /**
   * With 0/1 labels both counts never decrease, the true positives stay
   * within the positives P and the false positives within the negatives
   * N - P.
   */
  lemma CountsBounded(scores: seq<real>, labels: seq<int>, k: nat)
    requires |scores| == |labels| && k < |labels| && Binary(labels)
    ensures 0 <= Tps(scores, labels)[k] <= IntSum(labels)
    ensures 0 <= Fps(scores, labels)[k] <= |labels| - IntSum(labels)
    ensures k + 1 < |labels| ==> Tps(scores, labels)[k] <= Tps(scores, labels)[k + 1]
    ensures k + 1 < |labels| ==> Fps(scores, labels)[k] <= Fps(scores, labels)[k + 1]
  {
    var sl := SortedLabels(scores, labels);
    SortedLabelsBinary(scores, labels);
    BinarySum(sl);
    CumSumBinary(sl, k);
    CumSumBinary(Complement(sl), k);
    ComplementSum(sl);
  }

  /** Reordering keeps the labels 0/1. */
  lemma SortedLabelsBinary(scores: seq<real>, labels: seq<int>)
    requires |scores| == |labels| && Binary(labels)
    ensures Binary(SortedLabels(scores, labels))
  {
    var order := ArgsortDesc(scores);
    assert SortedLabels(scores, labels) == Select(labels, order);
  }

  /** `x if x > 0 else 1`, the division-by-zero guard. */
  function Safe(x: int): (r: int)
    ensures r >= 1 && (x > 0 ==> r == x)
  {
    if x > 0 then x else 1
  }

  /** `tpr = tps / P_safe` (recall). */
  function Tpr(scores: seq<real>, labels: seq<int>): (r: seq<real>)
    requires |scores| == |labels|
    ensures |r| == |labels|
  {
    var t, ps := Tps(scores, labels), Safe(IntSum(labels));
    seq(|labels|, k requires 0 <= k < |labels| => t[k] as real / ps as real)
  }

  /** `fpr = fps / N_safe`. */
  function Fpr(scores: seq<real>, labels: seq<int>): (r: seq<real>)
    requires |scores| == |labels|
    ensures |r| == |labels|
  {
    var f, ns := Fps(scores, labels), Safe(|labels| - IntSum(labels));
    seq(|labels|, k requires 0 <= k < |labels| => f[k] as real / ns as real)
  }

  /** `precision = tps / max(tps + fps, 1)`. */
  function Precision(scores: seq<real>, labels: seq<int>): (r: seq<real>)
    requires |scores| == |labels|
    ensures |r| == |labels|
  {
    var t, f := Tps(scores, labels), Fps(scores, labels);
    seq(|labels|, k requires 0 <= k < |labels| =>
      t[k] as real / (if t[k] + f[k] > 1 then t[k] + f[k] else 1) as real)
  }

  predicate InUnit(s: seq<real>)
  {
    forall k :: 0 <= k < |s| ==> 0.0 <= s[k] <= 1.0
  }

  predicate NonDecreasing(s: seq<real>)
  {
    forall k :: 0 <= k < |s| - 1 ==> s[k] <= s[k + 1]
  }

  lemma RatioInUnit(a: int, b: int)
    requires 0 <= a <= b && b >= 1
    ensures 0.0 <= a as real / b as real <= 1.0
  {
  }

  lemma RatioMonotone(a: int, c: int, b: int)
    requires a <= c && b >= 1
    ensures a as real / b as real <= c as real / b as real
  {
  }

  /** With 0/1 labels the rates lie in [0, 1] and never decrease along the sweep; precision lies in [0, 1]. */
  lemma RatesBounded(scores: seq<real>, labels: seq<int>)
    requires |scores| == |labels| && Binary(labels)
    ensures InUnit(Tpr(scores, labels)) && NonDecreasing(Tpr(scores, labels))
    ensures InUnit(Fpr(scores, labels)) && NonDecreasing(Fpr(scores, labels))
    ensures InUnit(Precision(scores, labels))
  {
    forall k | 0 <= k < |labels|
      ensures 0.0 <= Tpr(scores, labels)[k] <= 1.0
      ensures k + 1 < |labels| ==> Tpr(scores, labels)[k] <= Tpr(scores, labels)[k + 1]
    {
      TprAt(scores, labels, k);
    }
    forall k | 0 <= k < |labels|
      ensures 0.0 <= Fpr(scores, labels)[k] <= 1.0
      ensures k + 1 < |labels| ==> Fpr(scores, labels)[k] <= Fpr(scores, labels)[k + 1]
    {
      FprAt(scores, labels, k);
    }
    forall k | 0 <= k < |labels| ensures 0.0 <= Precision(scores, labels)[k] <= 1.0 {
      PrecisionAt(scores, labels, k);
    }
  }

  /** One true-positive rate lies in [0, 1] and is at most the next one. */
  lemma TprAt(scores: seq<real>, labels: seq<int>, k: nat)
    requires |scores| == |labels| && k < |labels| && Binary(labels)
    ensures 0.0 <= Tpr(scores, labels)[k] <= 1.0
    ensures k + 1 < |labels| ==> Tpr(scores, labels)[k] <= Tpr(scores, labels)[k + 1]
  {
    var t, ps := Tps(scores, labels), Safe(IntSum(labels));
    CountsBounded(scores, labels, k);
    RatioInUnit(t[k], ps);
    if k + 1 < |labels| {
      RatioMonotone(t[k], t[k + 1], ps);
    }
  }

  /** One false-positive rate lies in [0, 1] and is at most the next one. */
  lemma FprAt(scores: seq<real>, labels: seq<int>, k: nat)
    requires |scores| == |labels| && k < |labels| && Binary(labels)
    ensures 0.0 <= Fpr(scores, labels)[k] <= 1.0
    ensures k + 1 < |labels| ==> Fpr(scores, labels)[k] <= Fpr(scores, labels)[k + 1]
  {
    var f, ns := Fps(scores, labels), Safe(|labels| - IntSum(labels));
    CountsBounded(scores, labels, k);
    RatioInUnit(f[k], ns);
    if k + 1 < |labels| {
      RatioMonotone(f[k], f[k + 1], ns);
    }
  }

  /** One precision lies in [0, 1]. */
  lemma PrecisionAt(scores: seq<real>, labels: seq<int>, k: nat)
    requires |scores| == |labels| && k < |labels| && Binary(labels)
    ensures 0.0 <= Precision(scores, labels)[k] <= 1.0
  {
    var t, f := Tps(scores, labels), Fps(scores, labels);
    CountsBounded(scores, labels, k);
    RatioInUnit(t[k], if t[k] + f[k] > 1 then t[k] + f[k] else 1);
  }

  /** `np.trapz(y, x)`: the sum over consecutive pairs of the interval width times the mean height. */
  function Trapz(y: seq<real>, x: seq<real>): real
    requires |y| == |x|
  {
    if |x| <= 1 then 0.0
    else
      var n := |x| - 1;
      Trapz(y[..n], x[..n]) + (x[n] - x[n - 1]) * (y[n - 1] + y[n]) / 2.0
  }

  lemma TrapezoidTerm(dx: real, y0: real, y1: real)
    requires dx >= 0.0 && 0.0 <= y0 <= 1.0 && 0.0 <= y1 <= 1.0
    ensures 0.0 <= dx * (y0 + y1) / 2.0 <= dx
  {
    MulBounds(dx, y0 + y1, 2.0);
  }

  lemma MulBounds(a: real, b: real, c: real)
    requires a >= 0.0 && 0.0 <= b <= c
    ensures 0.0 <= a * b <= a * c
  {
  }

  /** Over non-decreasing x and heights in [0, 1], the area lies between 0 and the width of the x range. */
  lemma {:induction false} TrapzBounds(y: seq<real>, x: seq<real>)
    requires |y| == |x| >= 1 && NonDecreasing(x) && InUnit(y)
    ensures 0.0 <= Trapz(y, x) <= x[|x| - 1] - x[0]
  {
    if |x| > 1 {
      var n := |x| - 1;
      PrefixKeeps(y, x, n);
      TrapzBounds(y[..n], x[..n]);
      var dx := x[n] - x[n - 1];
      assert dx >= 0.0 && 0.0 <= y[n - 1] <= 1.0 && 0.0 <= y[n] <= 1.0;
      TrapezoidTerm(dx, y[n - 1], y[n]);
      var before, term := Trapz(y[..n], x[..n]), dx * (y[n - 1] + y[n]) / 2.0;
      assert 0.0 <= before <= x[n - 1] - x[0];
      assert 0.0 <= term <= dx;
      assert Trapz(y, x) == before + term;
    }
  }

  lemma PrefixKeeps(y: seq<real>, x: seq<real>, n: nat)
    requires |y| == |x| && 1 <= n <= |x| && NonDecreasing(x) && InUnit(y)
    ensures NonDecreasing(x[..n]) && InUnit(y[..n])
    ensures x[..n][0] == x[0] && x[..n][n - 1] == x[n - 1]
  {
  }

  datatype RocPoint = RocPoint(fpr: real, tpr: real)
  datatype PrPoint = PrPoint(recall: real, precision: real)

  /** The result: the ROC and PR point lists and the two areas. */
  datatype Curves = Curves(roc: seq<RocPoint>, pr: seq<PrPoint>, aucRoc: real, aucPr: real)

  /** `fpr_points` and `tpr_points`: the rates with (0, 0) prepended and (1, 1) appended. */
  function FprPoints(scores: seq<real>, labels: seq<int>): (r: seq<real>)
    requires |scores| == |labels|
    ensures |r| == |labels| + 2 && r[0] == 0.0 && r[|r| - 1] == 1.0
  {
    [0.0] + Fpr(scores, labels) + [1.0]
  }

  function TprPoints(scores: seq<real>, labels: seq<int>): (r: seq<real>)
    requires |scores| == |labels|
    ensures |r| == |labels| + 2 && r[0] == 0.0 && r[|r| - 1] == 1.0
  {
    [0.0] + Tpr(scores, labels) + [1.0]
  }

  /** `precision_points`: precision 1 at recall 0, then the precisions, then the last precision again. */
  function PrecisionPoints(scores: seq<real>, labels: seq<int>): (r: seq<real>)
    requires |scores| == |labels| > 0
    ensures |r| == |labels| + 2 && r[0] == 1.0 && r[|r| - 1] == r[|r| - 2]
  {
    var p := Precision(scores, labels);
    [1.0] + p + [p[|p| - 1]]
  }

  /**
   * `compute_roc_pr`: an error for different lengths or no entries;
   * otherwise N + 2 ROC points from (0, 0) to (1, 1), N + 2 PR points from
   * (0, 1) to recall 1 at the last precision, and their trapezoid areas.
   */
  function ComputeRocPr(scores: seq<real>, labels: seq<int>): (r: Result<Curves>)
    ensures |scores| != |labels| ==> r == Err("scores and labels must have the same shape")
    ensures |scores| == |labels| == 0 ==> r == Err("Empty scores/labels")
    ensures |scores| == |labels| > 0 ==> r.Ok?
    ensures r.Ok? ==>
      && |r.value.roc| == |labels| + 2
      && r.value.roc[0] == RocPoint(0.0, 0.0) && r.value.roc[|labels| + 1] == RocPoint(1.0, 1.0)
      && |r.value.pr| == |labels| + 2
      && r.value.pr[0] == PrPoint(0.0, 1.0) && r.value.pr[|labels| + 1].recall == 1.0
      && r.value.pr[|labels| + 1].precision == r.value.pr[|labels|].precision
    ensures r.Ok? ==> forall k :: 0 <= k < |labels| ==>
      && r.value.roc[k + 1] == RocPoint(Fpr(scores, labels)[k], Tpr(scores, labels)[k])
      && r.value.pr[k + 1] == PrPoint(Tpr(scores, labels)[k], Precision(scores, labels)[k])
    ensures r.Ok? ==> r.value.aucRoc == Trapz(TprPoints(scores, labels), FprPoints(scores, labels))
    ensures r.Ok? ==> r.value.aucPr == Trapz(PrecisionPoints(scores, labels), TprPoints(scores, labels))
  {
    if |scores| != |labels| then Err("scores and labels must have the same shape")
    else if |scores| == 0 then Err("Empty scores/labels")
    else
      var fx, ty := FprPoints(scores, labels), TprPoints(scores, labels);
      var py := PrecisionPoints(scores, labels);
      var roc := seq(|fx|, k requires 0 <= k < |fx| => RocPoint(fx[k], ty[k]));
      var pr := seq(|ty|, k requires 0 <= k < |ty| => PrPoint(ty[k], py[k]));
      Ok(Curves(roc, pr, Trapz(ty, fx), Trapz(py, ty)))
  }

  /**
   * The order among equal scores decides the area: two entries tied at
   * score 0, the first positive, come out as [1, 0], so the negative is
   * swept first and the ROC area is 0 (the order [0, 1] would give 1).
   */
  lemma TieOrderDecidesArea()
    ensures ArgsortDesc([0.0, 0.0]) == [1, 0]
    ensures ComputeRocPr([0.0, 0.0], [1, 0]).Ok?
    ensures ComputeRocPr([0.0, 0.0], [1, 0]).value.aucRoc == 0.0
  {
    TieExampleOrder();
    TieExamplePoints();
    TieExampleArea();
  }

  lemma TieExamplePoints()
    ensures FprPoints([0.0, 0.0], [1, 0]) == [0.0, 1.0, 1.0, 1.0]
    ensures TprPoints([0.0, 0.0], [1, 0]) == [0.0, 0.0, 1.0, 1.0]
  {
    TieExampleRates();
  }

  lemma TieExampleOrder()
    ensures ArgsortDesc([0.0, 0.0]) == [1, 0]
  {
    var scores := [0.0, 0.0];
    assert Iota(2) == [0, 1];
    assert [0, 1][1..] == [1];
    TieExampleInsert();
    assert SortDesc(scores, [1]) == [1] by {
      assert [1][1..] == [];
    }
  }

  lemma TieExampleInsert()
    ensures Insert([0.0, 0.0], 0, [1]) == [1, 0]
  {
    assert [1][1..] == [];
  }

  lemma TieExampleCounts()
    ensures Tps([0.0, 0.0], [1, 0]) == [0, 1] && Fps([0.0, 0.0], [1, 0]) == [1, 1]
  {
    TieExampleSorted();
    assert Complement([0, 1]) == [1, 0];
    TieExampleCumSums();
  }

  lemma TieExampleSorted()
    ensures SortedLabels([0.0, 0.0], [1, 0]) == [0, 1]
  {
    TieExampleOrder();
    assert Select([1, 0], [1, 0]) == [0, 1];
  }

  lemma TieExampleCumSums()
    ensures CumSum([0, 1]) == [0, 1] && CumSum([1, 0]) == [1, 1]
  {
    assert [0, 1][..1] == [0] && [0, 1][..2] == [0, 1];
    assert [1, 0][..1] == [1] && [1, 0][..2] == [1, 0];
    assert IntSum([0]) == 0 && IntSum([1]) == 1;
    assert IntSum([0, 1]) == 1 && IntSum([1, 0]) == 1;
  }

  lemma TieExampleRates()
    ensures Tpr([0.0, 0.0], [1, 0]) == [0.0, 1.0] && Fpr([0.0, 0.0], [1, 0]) == [1.0, 1.0]
  {
    TieExampleCounts();
    assert IntSum([1, 0]) == 1 by {
      assert [1, 0][..1] == [1];
    }
  }

  lemma TieExampleArea()
    ensures Trapz([0.0, 0.0, 1.0, 1.0], [0.0, 1.0, 1.0, 1.0]) == 0.0
  {
    var y, x := [0.0, 0.0, 1.0, 1.0], [0.0, 1.0, 1.0, 1.0];
    assert y[..3] == [0.0, 0.0, 1.0] && x[..3] == [0.0, 1.0, 1.0];
    assert y[..3][..2] == [0.0, 0.0] && x[..3][..2] == [0.0, 1.0];
    assert [0.0, 0.0][..1] == [0.0] && [0.0, 1.0][..1] == [0.0];
    assert Trapz([0.0], [0.0]) == 0.0;
    assert Trapz([0.0, 0.0], [0.0, 1.0]) == 0.0;
    assert Trapz([0.0, 0.0, 1.0], [0.0, 1.0, 1.0]) == 0.0;
  }

  /**
   * With 0/1 labels every ROC and PR point lies in the unit square, both
   * ROC coordinates never decrease along the list, and both areas lie in
   * [0, 1].
   */
  lemma CurvesInUnitSquare(scores: seq<real>, labels: seq<int>)
    requires |scores| == |labels| > 0 && Binary(labels)
    ensures var c := ComputeRocPr(scores, labels).value;
      && (forall k :: 0 <= k < |c.roc| ==> 0.0 <= c.roc[k].fpr <= 1.0 && 0.0 <= c.roc[k].tpr <= 1.0)
      && (forall k :: 0 <= k < |c.roc| - 1 ==> c.roc[k].fpr <= c.roc[k + 1].fpr && c.roc[k].tpr <= c.roc[k + 1].tpr)
      && (forall k :: 0 <= k < |c.pr| ==> 0.0 <= c.pr[k].recall <= 1.0 && 0.0 <= c.pr[k].precision <= 1.0)
      && 0.0 <= c.aucRoc <= 1.0 && 0.0 <= c.aucPr <= 1.0
  {
    RatesBounded(scores, labels);
    RocPointsBounded(scores, labels);
    PrPointsBounded(scores, labels);
    AreasBounded(scores, labels);
  }

  /** The bracketed rate lists stay in [0, 1] and non-decreasing. */
  lemma PointListsBounded(scores: seq<real>, labels: seq<int>)
    requires |scores| == |labels| > 0
    requires InUnit(Tpr(scores, labels)) && NonDecreasing(Tpr(scores, labels))
    requires InUnit(Fpr(scores, labels)) && NonDecreasing(Fpr(scores, labels))
    requires InUnit(Precision(scores, labels))
    ensures InUnit(FprPoints(scores, labels)) && NonDecreasing(FprPoints(scores, labels))
    ensures InUnit(TprPoints(scores, labels)) && NonDecreasing(TprPoints(scores, labels))
    ensures InUnit(PrecisionPoints(scores, labels))
  {
    Bracketed(Fpr(scores, labels));
    Bracketed(Tpr(scores, labels));
    RepeatLast(Precision(scores, labels));
  }

  lemma RocPointsBounded(scores: seq<real>, labels: seq<int>)
    requires |scores| == |labels| > 0
    requires InUnit(Tpr(scores, labels)) && NonDecreasing(Tpr(scores, labels))
    requires InUnit(Fpr(scores, labels)) && NonDecreasing(Fpr(scores, labels))
    requires InUnit(Precision(scores, labels))
    ensures var roc := ComputeRocPr(scores, labels).value.roc;
      && (forall k :: 0 <= k < |roc| ==> 0.0 <= roc[k].fpr <= 1.0 && 0.0 <= roc[k].tpr <= 1.0)
      && (forall k :: 0 <= k < |roc| - 1 ==> roc[k].fpr <= roc[k + 1].fpr && roc[k].tpr <= roc[k + 1].tpr)
  {
    PointListsBounded(scores, labels);
    var fx, ty := FprPoints(scores, labels), TprPoints(scores, labels);
    var roc := ComputeRocPr(scores, labels).value.roc;
    assert forall k :: 0 <= k < |roc| ==> roc[k] == RocPoint(fx[k], ty[k]);
  }

  lemma PrPointsBounded(scores: seq<real>, labels: seq<int>)
    requires |scores| == |labels| > 0
    requires InUnit(Tpr(scores, labels)) && NonDecreasing(Tpr(scores, labels))
    requires InUnit(Fpr(scores, labels)) && NonDecreasing(Fpr(scores, labels))
    requires InUnit(Precision(scores, labels))
    ensures var pr := ComputeRocPr(scores, labels).value.pr;
      forall k :: 0 <= k < |pr| ==> 0.0 <= pr[k].recall <= 1.0 && 0.0 <= pr[k].precision <= 1.0
  {
    PointListsBounded(scores, labels);
    var ty, py := TprPoints(scores, labels), PrecisionPoints(scores, labels);
    var pr := ComputeRocPr(scores, labels).value.pr;
    assert forall k :: 0 <= k < |pr| ==> pr[k] == PrPoint(ty[k], py[k]);
  }

  lemma AreasBounded(scores: seq<real>, labels: seq<int>)
    requires |scores| == |labels| > 0
    requires InUnit(Tpr(scores, labels)) && NonDecreasing(Tpr(scores, labels))
    requires InUnit(Fpr(scores, labels)) && NonDecreasing(Fpr(scores, labels))
    requires InUnit(Precision(scores, labels))
    ensures 0.0 <= ComputeRocPr(scores, labels).value.aucRoc <= 1.0
    ensures 0.0 <= ComputeRocPr(scores, labels).value.aucPr <= 1.0
  {
    PointListsBounded(scores, labels);
    var fx, ty := FprPoints(scores, labels), TprPoints(scores, labels);
    var py := PrecisionPoints(scores, labels);
    TrapzBounds(ty, fx);
    TrapzBounds(py, ty);
  }

  /** Bracketing rates in [0, 1] by 0 and 1 keeps them in [0, 1] and non-decreasing. */
  lemma Bracketed(m: seq<real>)
    requires InUnit(m) && NonDecreasing(m)
    ensures InUnit([0.0] + m + [1.0]) && NonDecreasing([0.0] + m + [1.0])
  {
    var r := [0.0] + m + [1.0];
    assert forall k :: 0 < k < |r| - 1 ==> r[k] == m[k - 1];
  }

  /** Bracketing precisions in [0, 1] by 1 and the last precision keeps them in [0, 1]. */
  lemma RepeatLast(m: seq<real>)
    requires |m| > 0 && InUnit(m)
    ensures InUnit([1.0] + m + [m[|m| - 1]])
  {
    var r := [1.0] + m + [m[|m| - 1]];
    assert forall k :: 0 < k < |r| - 1 ==> r[k] == m[k - 1];
  }
}
