/** Drawdown from the running maximum: the quantity both the breaker and the evaluation report. */
module Drawdown {
  import opened Prelude

  function Peak(values: seq<real>): (p: real)
    requires values != []
    ensures p in values
    ensures forall v :: v in values ==> v <= p
  {
    var last := values[|values| - 1];
    if |values| == 1 then last
    else
      var before := Peak(values[..|values| - 1]);
      assert forall v :: v in values ==> v == last || v in values[..|values| - 1];
      if last > before then last else before
  }

  /** Loss of the latest value against the maximum so far, as a fraction of that maximum. */
  function LastDrawdown(values: seq<real>): real
    requires values != [] && Peak(values) > 0.0
  {
    (Peak(values) - values[|values| - 1]) / Peak(values)
  }

  ghost predicate AllPositive(values: seq<real>) {
    forall i :: 0 <= i < |values| ==> values[i] > 0.0
  }

  /** The drawdown at every position, each against the maximum of the values up to and including it. */
  function Drawdowns(values: seq<real>): (dds: seq<real>)
    requires AllPositive(values)
    ensures |dds| == |values|
  {
    if values == [] then []
    else Drawdowns(values[..|values| - 1]) + [LastDrawdown(values)]
  }

  lemma PeakExtend(values: seq<real>, v: real)
    ensures Peak(values + [v]) == if values != [] && Peak(values) >= v then Peak(values) else v
  {
    assert (values + [v])[..|values|] == values;
  }

  lemma FractionNonnegative(p: real, v: real)
    requires p > 0.0 && v <= p
    ensures (p - v) / p >= 0.0
  {
  }

  lemma DrawdownsExtend(values: seq<real>, v: real)
    requires AllPositive(values) && v > 0.0
    ensures AllPositive(values + [v])
    ensures Drawdowns(values + [v]) == Drawdowns(values) + [LastDrawdown(values + [v])]
  {
    assert (values + [v])[..|values|] == values;
  }

  lemma {:induction false} DrawdownsAt(values: seq<real>, i: nat)
    requires AllPositive(values) && i < |values|
    ensures Drawdowns(values)[i] == LastDrawdown(values[..i + 1])
  {
    if i == |values| - 1 {
      assert values[..i + 1] == values;
    } else {
      var before := values[..|values| - 1];
      DrawdownsAt(before, i);
      assert before[..i + 1] == values[..i + 1];
    }
  }
}
