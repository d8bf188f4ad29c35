/** Maximum drawdown of an equity curve: one pass, the best pair, and what the breaker would have done. */
module Evaluation {
  import opened Prelude
  import opened Drawdown
  import opened Breaker
  import opened RealArith

  /** One more value: the running peak (absent before the first value) and the worst fall so far. */
  function PassStep(peak: Option<real>, worst: real, v: real): (Option<real>, real) {
    var p := if peak.Some? then Max(peak.value, v) else v;
    (Some(p), if p > 0.0 then Max(worst, (p - v) / p) else worst)
  }

  /** What one pass has computed. */
  function OnePass(values: seq<real>): (Option<real>, real) {
    if values == [] then (None, 0.0)
    else
      var (peak, worst) := OnePass(values[..|values| - 1]);
      PassStep(peak, worst, values[|values| - 1])
  }

  method Mdd(values: seq<real>) returns (worst: real)
    ensures worst == OnePass(values).1
  {
    var peak: Option<real> := None;
    worst := 0.0;
    for i := 0 to |values|
      invariant (peak, worst) == OnePass(values[..i])
    {
      var v := values[i];
      assert values[..i + 1][..i] == values[..i];
      var p := if peak.Some? then Max(peak.value, v) else v;
      peak := Some(p);
      if p > 0.0 {
        worst := Max(worst, (p - v) / p);
      }
    }
    assert values[..|values|] == values;
  }

  /** The loss from value i down to value j, as a fraction of value i. */
  function Fall(values: seq<real>, i: nat, j: nat): real
    requires i < |values| && j < |values| && values[i] > 0.0
  {
    (values[i] - values[j]) / values[i]
  }

  ghost predicate NoneNegative(values: seq<real>) {
    forall i :: 0 <= i < |values| ==> values[i] >= 0.0
  }

  ghost predicate BoundsEveryFall(values: seq<real>, worst: real) {
    forall i, j :: 0 <= i <= j < |values| && values[i] > 0.0 ==> Fall(values, i, j) <= worst
  }

  ghost predicate AttainedByAFall(values: seq<real>, worst: real) {
    worst == 0.0 || exists i, j :: 0 <= i <= j < |values| && values[i] > 0.0 && Fall(values, i, j) == worst
  }

  lemma HigherPeakFallsFurther(a: real, p: real, v: real)
    requires 0.0 < a <= p && v >= 0.0
    ensures (a - v) / a <= (p - v) / p
  {
    var kept := v / p;
    CancelDiv(p - v, 1.0 - kept, p);
    MulMono(a, p, kept);
    DivLe(a - v, 1.0 - kept, a);
  }

  lemma {:induction false} PeakOfPass(values: seq<real>)
    requires values != []
    ensures OnePass(values).0 == Some(Peak(values))
  {
    if |values| > 1 {
      PeakOfPass(values[..|values| - 1]);
    }
  }

  lemma WorstGrows(values: seq<real>)
    requires values != []
    ensures OnePass(values[..|values| - 1]).1 <= OnePass(values).1
  {
    hide PassStep;
    var (peak, worst) := OnePass(values[..|values| - 1]);
    StepOnlyGrows(peak, worst, values[|values| - 1]);
  }

  lemma StepOnlyGrows(peak: Option<real>, worst: real, v: real)
    ensures worst <= PassStep(peak, worst, v).1
  {
  }

  lemma FallFrom(values: seq<real>, i: nat)
    requires i < |values| && values[i] > 0.0
    ensures Fall(values, i, |values| - 1) == (values[i] - values[|values| - 1]) / values[i]
  {
  }

  lemma KeptOrFromPeak(values: seq<real>)
    requires values != [] && OnePass(values).0 == Some(Peak(values))
    ensures var worst, peak := OnePass(values).1, Peak(values);
      worst == OnePass(values[..|values| - 1]).1 || (peak > 0.0 && worst == (peak - values[|values| - 1]) / peak)
  {
    hide PassStep, Peak;
    var (peak, worst) := OnePass(values[..|values| - 1]);
    StepKeepsOrFalls(peak, worst, values[|values| - 1]);
  }

  lemma StepKeepsOrFalls(peak: Option<real>, worst: real, v: real)
    ensures var (p, w) := PassStep(peak, worst, v);
      p.Some? && (w == worst || (p.value > 0.0 && w == (p.value - v) / p.value))
  {
  }

  lemma FallOfPrefix(values: seq<real>, n: nat, i: nat, j: nat)
    requires i < n <= |values| && j < n && values[i] > 0.0
    ensures Fall(values[..n], i, j) == Fall(values, i, j)
  {
  }

  lemma StillAttained(values: seq<real>, n: nat, worst: real)
    requires n <= |values| && AttainedByAFall(values[..n], worst)
    ensures AttainedByAFall(values, worst)
  {
    hide Fall;
    var before := values[..n];
    if worst != 0.0 {
      var i, j :| 0 <= i <= j < |before| && before[i] > 0.0 && Fall(before, i, j) == worst;
      FallOfPrefix(values, n, i, j);
    }
  }

  lemma LastValueAttained(values: seq<real>)
    requires values != []
    requires AttainedByAFall(values[..|values| - 1], OnePass(values[..|values| - 1]).1)
    requires OnePass(values).0 == Some(Peak(values))
    ensures AttainedByAFall(values, OnePass(values).1)
  {
    hide OnePass, Peak, Fall, AttainedByAFall;
    KeptOrFromPeak(values);
    if OnePass(values).1 == OnePass(values[..|values| - 1]).1 {
      StillAttained(values, |values| - 1, OnePass(values).1);
    } else {
      var i :| 0 <= i < |values| && values[i] == Peak(values);
      AttainedFrom(values, i);
    }
  }

  lemma AttainedFrom(values: seq<real>, i: nat)
    requires i < |values| && values[i] > 0.0
    ensures AttainedByAFall(values, (values[i] - values[|values| - 1]) / values[i])
  {
    hide Fall;
    FallFrom(values, i);
    assert Fall(values, i, |values| - 1) == (values[i] - values[|values| - 1]) / values[i];
  }

  // ---------------------------------------------------------------- exactly when it is the largest fall

  /** Falls to values that are not negative: from the highest value they are largest. */
  ghost predicate BoundsUpperFalls(values: seq<real>, worst: real) {
    forall i, j :: 0 <= i <= j < |values| && values[i] > 0.0 && values[j] >= 0.0 ==> Fall(values, i, j) <= worst
  }

  /** Falls to negative values: from the lowest positive value they are largest. */
  ghost predicate BoundsLowerFalls(values: seq<real>, worst: real) {
    forall i, j :: 0 <= i <= j < |values| && values[i] > 0.0 && values[j] < 0.0 ==> Fall(values, i, j) <= worst
  }

  lemma FallToLast(values: seq<real>, i: nat)
    requires i < |values| && values[i] > 0.0 && values[|values| - 1] >= 0.0
    requires OnePass(values).0 == Some(Peak(values))
    ensures Fall(values, i, |values| - 1) <= OnePass(values).1
  {
    assert values[i] in values;
    HigherPeakFallsFurther(values[i], Peak(values), values[|values| - 1]);
  }

  lemma {:induction false} PassBoundsUpperFalls(values: seq<real>)
    ensures BoundsUpperFalls(values, OnePass(values).1)
  {
    if values != [] {
      var n, before := |values| - 1, values[..|values| - 1];
      PassBoundsUpperFalls(before);
      PeakOfPass(values);
      WorstGrows(values);
      hide OnePass, Peak, Fall;
      forall i, j | 0 <= i <= j < |values| && values[i] > 0.0 && values[j] >= 0.0
        ensures Fall(values, i, j) <= OnePass(values).1
      {
        if j < n {
          FallOfPrefix(values, n, i, j);
          assert before[i] == values[i] && before[j] == values[j];
          assert Fall(before, i, j) <= OnePass(before).1;
        } else {
          FallToLast(values, i);
        }
      }
    }
  }

  lemma {:induction false} PassIsAttained(values: seq<real>)
    ensures OnePass(values).1 >= 0.0 && AttainedByAFall(values, OnePass(values).1)
  {
    if values != [] {
      PassIsAttained(values[..|values| - 1]);
      PeakOfPass(values);
      WorstGrows(values);
      LastValueAttained(values);
    }
  }

  /** One more value: the lowest positive value so far, and the worst fall from it to a negative value. */
  function LowStep(low: Option<real>, worst: real, v: real): (Option<real>, real) {
    (if v > 0.0 && (low.None? || v < low.value) then Some(v) else low,
     if v < 0.0 && low.Some? && low.value > 0.0 then Max(worst, (low.value - v) / low.value) else worst)
  }

  /** The complementary pass: what the falls to negative values amount to. */
  function LowPass(values: seq<real>): (Option<real>, real) {
    if values == [] then (None, 0.0)
    else
      var (low, worst) := LowPass(values[..|values| - 1]);
      LowStep(low, worst, values[|values| - 1])
  }

  /** The first component of the complementary pass is the lowest positive value, when there is one. */
  ghost predicate IsLowest(values: seq<real>, low: Option<real>) {
    match low
    case None => forall i :: 0 <= i < |values| ==> values[i] <= 0.0
    case Some(v) => v > 0.0 && v in values && forall i :: 0 <= i < |values| && values[i] > 0.0 ==> v <= values[i]
  }

  lemma {:induction false} LowOfPass(values: seq<real>)
    ensures IsLowest(values, LowPass(values).0)
  {
    if values != [] {
      var before := values[..|values| - 1];
      LowOfPass(before);
      LowStepLowest(LowPass(before).0, LowPass(before).1, before, values[|values| - 1]);
      assert values == before + [values[|values| - 1]];
    }
  }

  lemma LowStepLowest(low: Option<real>, worst: real, before: seq<real>, v: real)
    requires IsLowest(before, low)
    ensures IsLowest(before + [v], LowStep(low, worst, v).0)
  {
    var values := before + [v];
    assert values[|before|] == v;
    assert forall i :: 0 <= i < |before| ==> values[i] == before[i];
  }

  lemma LowerStartFallsFurther(a: real, low: real, v: real)
    requires 0.0 < low <= a && v <= 0.0
    ensures (a - v) / a <= (low - v) / low
  {
    var owed := -v / low;
    CancelDiv(low - v, 1.0 + owed, low);
    MulMono(low, a, owed);
    DivLe(a - v, 1.0 + owed, a);
  }

  lemma LowStepEffect(low: Option<real>, worst: real, v: real)
    requires low.Some? ==> low.value > 0.0
    ensures var w := LowStep(low, worst, v).1;
      worst <= w
      && (v < 0.0 && low.Some? ==> (low.value - v) / low.value <= w)
      && (w == worst || (v < 0.0 && low.Some? && w == (low.value - v) / low.value))
  {
  }

  lemma {:induction false} LowPassBoundsLowerFalls(values: seq<real>)
    ensures BoundsLowerFalls(values, LowPass(values).1)
  {
    if values != [] {
      var n, before, v := |values| - 1, values[..|values| - 1], values[|values| - 1];
      LowPassBoundsLowerFalls(before);
      LowOfPass(before);
      var (low, worst) := LowPass(before);
      LowStepEffect(low, worst, v);
      var w := LowStep(low, worst, v).1;
      assert LowPass(values).1 == w;
      hide LowPass, LowStep, Fall;
      forall i, j | 0 <= i <= j < |values| && values[i] > 0.0 && values[j] < 0.0 ensures Fall(values, i, j) <= w {
        if j < n {
          FallOfPrefix(values, n, i, j);
          assert before[i] == values[i] && before[j] == values[j];
          assert Fall(before, i, j) <= worst;
        } else {
          assert before[i] == values[i];
          FallFrom(values, i);
          LowerStartFallsFurther(values[i], low.value, v);
        }
      }
    }
  }

  lemma {:induction false} LowPassIsAttained(values: seq<real>)
    ensures AttainedByAFall(values, LowPass(values).1)
  {
    if values != [] {
      var n, before, v := |values| - 1, values[..|values| - 1], values[|values| - 1];
      LowPassIsAttained(before);
      LowOfPass(before);
      var (low, worst) := LowPass(before);
      LowStepEffect(low, worst, v);
      var w := LowStep(low, worst, v).1;
      assert LowPass(values).1 == w;
      hide LowPass, LowStep, Fall, AttainedByAFall;
      if w == worst {
        StillAttained(values, n, worst);
      } else {
        var i :| 0 <= i < n && before[i] == low.value;
        assert values[i] == low.value;
        AttainedFrom(values, i);
      }
    }
  }

  lemma BoundSplits(values: seq<real>, worst: real)
    ensures BoundsEveryFall(values, worst) <==> BoundsUpperFalls(values, worst) && BoundsLowerFalls(values, worst)
  {
    hide Fall;
  }

  /**
   * The single pass, for every list of values: its result is attained by some fall, it bounds every fall to a value
   * that is not negative, and it is the largest fall of all if and only if the complementary pass finds no larger one.
   */
  lemma {:induction false} MddIsLargestFallExactlyWhen(values: seq<real>)
    ensures var worst := OnePass(values).1;
      worst >= 0.0 && AttainedByAFall(values, worst) && BoundsUpperFalls(values, worst)
      && (BoundsEveryFall(values, worst) <==> LowPass(values).1 <= worst)
  {
    hide OnePass, LowPass, Fall;
    var worst, lower := OnePass(values).1, LowPass(values).1;
    PassIsAttained(values);
    PassBoundsUpperFalls(values);
    LowPassBoundsLowerFalls(values);
    LowPassIsAttained(values);
    BoundSplits(values, worst);
    if BoundsEveryFall(values, worst) && lower != 0.0 {
      var i, j :| 0 <= i <= j < |values| && values[i] > 0.0 && Fall(values, i, j) == lower;
    }
  }

  /** Without negative values it always is. */
  lemma {:induction false} MddIsLargestFall(values: seq<real>)
    requires NoneNegative(values)
    ensures var worst := OnePass(values).1;
      worst >= 0.0 && BoundsEveryFall(values, worst) && AttainedByAFall(values, worst)
  {
    hide OnePass, Fall;
    PassIsAttained(values);
    PassBoundsUpperFalls(values);
  }

  /** A negative value alone does no harm, but after a low start the pass misses the worst pair. */
  lemma NegativeValueMissed()
    ensures var values := [1.0, 10.0, -1.0]; OnePass(values).1 == 1.1 && Fall(values, 0, 2) == 2.0
    ensures var values := [10.0, -1.0]; OnePass(values).1 == 1.1 && BoundsEveryFall(values, 1.1)
  {
    var values := [1.0, 10.0, -1.0];
    assert values[..2] == [1.0, 10.0] && [1.0, 10.0][..1] == [1.0] && [1.0][..0] == [];
    assert OnePass([1.0]) == (Some(1.0), 0.0);
    assert OnePass([1.0, 10.0]) == (Some(10.0), 0.0);
    var short := [10.0, -1.0];
    assert short[..1] == [10.0] && [10.0][..0] == [];
    assert OnePass([10.0]) == (Some(10.0), 0.0);
    assert Fall(short, 0, 0) == 0.0 && Fall(short, 0, 1) == 1.1;
  }

  // ---------------------------------------------------------------- agreement with the breaker

  /** Feeding a breaker one equity a day. */
  function Feed(values: seq<real>): (events: seq<Event>)
    ensures |events| == |values|
  {
    seq(|values|, i requires 0 <= i < |values| => Assess(Some(values[i]), None, i))
  }

  lemma {:induction false} FeedSamples(values: seq<real>)
    requires AllPositive(values)
    ensures Samples(Feed(values)) == values
  {
    if values != [] {
      var before := values[..|values| - 1];
      FeedSamples(before);
      assert Feed(values)[..|values| - 1] == Feed(before);
    }
  }

  ghost predicate SomeReaches(dds: seq<real>, limit: real) {
    exists i :: 0 <= i < |dds| && dds[i] >= limit
  }

  lemma {:induction false} MddReachesLimitIffSomeDrawdownDoes(values: seq<real>, limit: real)
    requires AllPositive(values) && limit > 0.0
    ensures OnePass(values).1 >= limit <==> SomeReaches(Drawdowns(values), limit)
  {
    if values != [] {
      var n := |values| - 1;
      var before := values[..n];
      MddReachesLimitIffSomeDrawdownDoes(before, limit);
      PeakOfPass(values);
      var dds, was := Drawdowns(values), Drawdowns(before);
      assert OnePass(values).1 == Max(OnePass(before).1, dds[n]);
      assert forall i :: 0 <= i < n ==> dds[i] == was[i];
    }
  }

  /**
   * The evaluator and the breaker agree: a fresh breaker fed the curve has its drawdown latch on after
   * some value exactly when the one-pass maximum drawdown reaches the breaker's limit.
   */
  lemma {:induction false} MddAgreesWithBreaker(cfg: BreakerConfig, values: seq<real>)
    requires AllPositive(values) && cfg.maxDrawdownLimit > 0.0
    ensures OnePass(values).1 >= cfg.maxDrawdownLimit
      <==> exists n: nat :: n <= |values| && HaltsAfter(cfg, values, n)
  {
    MddReachesLimitIffSomeDrawdownDoes(values, cfg.maxDrawdownLimit);
    var dds := Drawdowns(values);
    if i :| 0 <= i < |values| && dds[i] >= cfg.maxDrawdownLimit {
      HaltAfterFeed(cfg, values, i + 1);
      assert LatchedFrom(cfg, dds[..i + 1], i);
      assert HaltsAfter(cfg, values, i + 1);
    }
    if n: nat :| n <= |values| && HaltsAfter(cfg, values, n) {
      HaltAfterFeed(cfg, values, n);
      var i :| 0 <= i < |dds[..n]| && LatchedFrom(cfg, dds[..n], i);
      assert dds[i] >= cfg.maxDrawdownLimit;
    }
  }

  predicate HaltsAfter(cfg: BreakerConfig, values: seq<real>, n: nat)
    requires n <= |values|
  {
    Run(cfg, Feed(values[..n])).drawdownHalt
  }

  lemma HaltAfterFeed(cfg: BreakerConfig, values: seq<real>, n: nat)
    requires AllPositive(values) && n <= |values|
    ensures HaltsAfter(cfg, values, n) <==> Latched(cfg, Drawdowns(values)[..n])
  {
    LatchCharacterised(cfg, Feed(values[..n]));
    FeedSamples(values[..n]);
    DrawdownsPrefix(values, n);
  }

  lemma {:induction false} DrawdownsPrefix(values: seq<real>, n: nat)
    requires AllPositive(values) && n <= |values|
    ensures Drawdowns(values[..n]) == Drawdowns(values)[..n]
  {
    if n == |values| {
      assert values[..n] == values;
    } else {
      var before := values[..|values| - 1];
      DrawdownsPrefix(before, n);
      assert before[..n] == values[..n];
    }
  }
}
