/** Deterministic sizing: a decision and its context become an order request, or nothing. */
module Allocator {
  import opened Prelude
  import opened Orders
  import opened RealArith

  datatype Action = BuyIt | SellIt | Hold

  datatype Decision = Decision(action: Action, symbol: Symbol, confidence: real)

  /** `lastClose` is absent when no indicators were computed. */
  datatype CandidateContext = CandidateContext(
    symbol: Symbol, lastClose: Option<real>, alreadyHeld: bool, heldQuantity: Option<real>,
    portfolioValue: Option<real>, cash: Option<real>)

  function PriceOf(ctx: CandidateContext): Option<real> {
    if ctx.lastClose.Some? && ctx.lastClose.value > 0.0 then ctx.lastClose else None
  }

  /** What the largest permitted weight still leaves for this symbol, measured on total assets. */
  function WeightRoom(ctx: CandidateContext, cfg: GuardrailConfig, price: real): real
    requires ctx.portfolioValue.Some?
  {
    var equity := ctx.portfolioValue.value + ctx.cash.GetOr(0.0);
    Max(0.0, cfg.perSymbolMaxWeight * equity - ctx.heldQuantity.GetOr(0.0) * price)
  }

  function Ceiling(ctx: CandidateContext, cfg: GuardrailConfig, price: real): real {
    var a := cfg.perOrderMax;
    var b := if ctx.cash.Some? then Min(a, ctx.cash.value) else a;
    if ctx.portfolioValue.Some? then Min(b, WeightRoom(ctx, cfg, price)) else b
  }

  /** Exposure only ever shrinks a buy. */
  function Clamp(m: real): real {
    Min(Max(m, 0.0), 1.0)
  }

  /** Whole shares only, rounded toward zero. */
  function RoundDown(x: real): real {
    if x >= 0.0 then x.Floor as real else -((-x).Floor as real)
  }

  function Scale(amount: real, fraction: real): real {
    amount * fraction
  }

  /** The amount to spend: the ceiling scaled by confidence and by the clamped exposure. */
  function Target(ceiling: real, confidence: real, multiplier: real): real {
    Scale(Scale(ceiling, confidence), Clamp(multiplier))
  }

  function BuyQuantity(ctx: CandidateContext, d: Decision, cfg: GuardrailConfig, price: real, multiplier: real): real
    requires price > 0.0
  {
    var ceiling := Ceiling(ctx, cfg, price);
    if ceiling <= 0.0 then 0.0
    else RoundDown(Target(ceiling, d.confidence, multiplier) / price)
  }

  function Allocate(d: Decision, ctx: CandidateContext, cfg: GuardrailConfig, id: OrderId, multiplier: real): Option<OrderRequest> {
    if d.action.Hold? then None
    else
      match PriceOf(ctx)
      case None => None
      case Some(price) =>
        if d.action.SellIt? then
          if !ctx.alreadyHeld || ctx.heldQuantity.GetOr(0.0) <= 0.0 then None
          else Some(OrderRequest(id, ctx.symbol, Sell, Limit, ctx.heldQuantity, Some(price), None))
        else
          var qty := BuyQuantity(ctx, d, cfg, price, multiplier);
          if qty < 1.0 then None
          else Some(OrderRequest(id, ctx.symbol, Buy, Limit, Some(qty), Some(price), None))
  }

  lemma RoundDownBounds(x: real)
    ensures x >= 0.0 ==> 0.0 <= RoundDown(x) <= x
    ensures x <= 0.0 ==> x <= RoundDown(x) <= 0.0
  {
  }

  lemma FractionOf(a: real, f: real)
    requires a >= 0.0 && 0.0 <= f <= 1.0
    ensures 0.0 <= Scale(a, f) <= a
  {
    assert a * f + a * (1.0 - f) == a;
  }

  lemma TargetWithin(ceiling: real, confidence: real, multiplier: real)
    requires ceiling > 0.0 && 0.0 <= confidence <= 1.0
    ensures 0.0 <= Target(ceiling, confidence, multiplier) <= ceiling
  {
    hide Scale;
    FractionOf(ceiling, confidence);
    FractionOf(Scale(ceiling, confidence), Clamp(multiplier));
  }

  lemma NotionalWithin(target: real, price: real)
    requires target >= 0.0 && price > 0.0
    ensures 0.0 <= RoundDown(target / price) * price <= target
  {
    RoundDownBounds(target / price);
    MulMono(RoundDown(target / price), target / price, price);
  }

  lemma QuantityWithinCeiling(ctx: CandidateContext, d: Decision, cfg: GuardrailConfig, price: real, multiplier: real)
    requires 0.0 <= d.confidence <= 1.0 && price > 0.0
    ensures var qty := BuyQuantity(ctx, d, cfg, price, multiplier);
      qty >= 1.0 ==> qty * price <= Ceiling(ctx, cfg, price)
  {
    hide Ceiling, RoundDown, Target;
    var ceiling := Ceiling(ctx, cfg, price);
    if ceiling > 0.0 {
      TargetWithin(ceiling, d.confidence, multiplier);
      NotionalWithin(Target(ceiling, d.confidence, multiplier), price);
    }
  }

  /** A sized buy costs no more than its ceiling, for every confidence in [0,1] and every multiplier. */
  lemma {:induction false} BuyWithinCeiling(d: Decision, ctx: CandidateContext, cfg: GuardrailConfig, id: OrderId, multiplier: real)
    requires 0.0 <= d.confidence <= 1.0 && d.action.BuyIt?
    requires Allocate(d, ctx, cfg, id, multiplier).Some?
    ensures var req := Allocate(d, ctx, cfg, id, multiplier).value; var price := PriceOf(ctx);
      req.EstimatedNotional().Some? && price.Some? && req.side.Buy?
      && 0.0 < req.EstimatedNotional().value <= Ceiling(ctx, cfg, price.value)
  {
    hide Ceiling, BuyQuantity;
    var price := PriceOf(ctx).value;
    QuantityWithinCeiling(ctx, d, cfg, price, multiplier);
    MulMono(1.0, BuyQuantity(ctx, d, cfg, price, multiplier), price);
  }

  /** The least of the limits that apply: per order, cash when known, and what the weight limit leaves when assets are known. */
  ghost predicate LeastLimit(ctx: CandidateContext, cfg: GuardrailConfig, price: real, limit: real) {
    var assets := ctx.portfolioValue.GetOr(0.0) + ctx.cash.GetOr(0.0);
    var room := Max(cfg.perSymbolMaxWeight * assets - ctx.heldQuantity.GetOr(0.0) * price, 0.0);
    limit <= cfg.perOrderMax
    && (ctx.cash.Some? ==> limit <= ctx.cash.value)
    && (ctx.portfolioValue.Some? ==> limit <= room)
    && (limit == cfg.perOrderMax || ctx.cash == Some(limit) || (ctx.portfolioValue.Some? && limit == room))
  }

  /** The money a judge's confidence and the exposure leave of a limit; exposure is capped to [0,1]. */
  function Budget(limit: real, confidence: real, multiplier: real): real {
    if multiplier <= 0.0 then 0.0
    else if multiplier >= 1.0 then limit * confidence
    else limit * confidence * multiplier
  }

  lemma CeilingIsLeastLimit(ctx: CandidateContext, cfg: GuardrailConfig, price: real)
    ensures LeastLimit(ctx, cfg, price, Ceiling(ctx, cfg, price))
  {
    if ctx.portfolioValue.Some? {
      var assets := ctx.portfolioValue.GetOr(0.0) + ctx.cash.GetOr(0.0);
      assert WeightRoom(ctx, cfg, price) == Max(cfg.perSymbolMaxWeight * assets - ctx.heldQuantity.GetOr(0.0) * price, 0.0);
    }
  }

  lemma LeastLimitUnique(ctx: CandidateContext, cfg: GuardrailConfig, price: real, a: real, b: real)
    requires LeastLimit(ctx, cfg, price, a) && LeastLimit(ctx, cfg, price, b)
    ensures a == b
  {
  }

  lemma TargetIsBudget(limit: real, confidence: real, multiplier: real)
    ensures Target(limit, confidence, multiplier) == Budget(limit, confidence, multiplier)
  {
  }

  lemma FloorDividesExactly(target: real, price: real)
    requires target >= 0.0 && price > 0.0
    ensures var q := RoundDown(target / price);
      q == q.Floor as real && q * price <= target < q * price + price && (q >= 1.0 <==> target >= price)
  {
    hide RoundDown, Scale;
    var x, q := target / price, RoundDown(target / price);
    Divides(target, price);
    RoundDownIsWhole(x);
    ScaleKeepsOrder(q, x, price);
    ScaleUnits(price);
    if x >= 1.0 {
      ScaleGap(1.0, x, price);
    } else {
      ScaleGap(x, 1.0, price);
    }
    Unscaled(q, price, target);
  }

  lemma Divides(target: real, price: real)
    requires target >= 0.0 && price > 0.0
    ensures target / price >= 0.0 && Scale(target / price, price) == target
  {
  }

  lemma RoundDownIsWhole(x: real)
    requires x >= 0.0
    ensures var q := RoundDown(x); q == q.Floor as real && q <= x < q + 1.0 && (q >= 1.0 <==> x >= 1.0)
  {
  }

  lemma ScaleUnits(a: real)
    ensures Scale(0.0, a) == 0.0 && Scale(1.0, a) == a
  {
  }

  lemma ScaleAdds(x: real, y: real, a: real)
    ensures Scale(x + y, a) == Scale(x, a) + Scale(y, a)
  {
  }

  lemma ScalePositive(x: real, a: real)
    requires x >= 0.0 && a > 0.0
    ensures Scale(x, a) >= 0.0 && (x > 0.0 ==> Scale(x, a) > 0.0)
  {
  }

  lemma ScaleGap(x: real, y: real, a: real)
    requires a > 0.0 && x <= y
    ensures Scale(x, a) <= Scale(y, a) && (x < y ==> Scale(x, a) < Scale(y, a))
  {
    hide Scale;
    ScaleAdds(x, y - x, a);
    ScalePositive(y - x, a);
  }

  lemma ScaleKeepsOrder(q: real, x: real, a: real)
    requires a > 0.0 && q <= x < q + 1.0
    ensures Scale(q, a) <= Scale(x, a) < Scale(q, a) + a
  {
    hide Scale;
    ScaleGap(q, x, a);
    ScaleGap(x, q + 1.0, a);
    ScaleAdds(q, 1.0, a);
    ScaleUnits(a);
  }

  lemma Unscaled(q: real, a: real, target: real)
    requires Scale(q, a) <= target < Scale(q, a) + a
    ensures q * a <= target < q * a + a
  {
  }

  /**
   * The size of a buy, exactly: the largest whole number of shares whose cost stays within the budget that confidence
   * and exposure leave of the least limit, at the last close; none when not even one share fits.
   */
  lemma {:induction false} SizedToTheShare(
    d: Decision, ctx: CandidateContext, cfg: GuardrailConfig, id: OrderId, multiplier: real, price: real, limit: real)
    requires d.action.BuyIt? && 0.0 <= d.confidence && ctx.lastClose == Some(price) && price > 0.0
    requires LeastLimit(ctx, cfg, price, limit)
    ensures var made := Allocate(d, ctx, cfg, id, multiplier); var budget := Budget(limit, d.confidence, multiplier);
      (made.Some? <==> limit > 0.0 && budget >= price)
      && (made.Some? ==>
            made.value.quantity.Some?
            && (var q := made.value.quantity.value;
                made.value == OrderRequest(id, ctx.symbol, Buy, Limit, Some(q), Some(price), None)
                && q == q.Floor as real && q * price <= budget < q * price + price))
  {
    hide Ceiling, LeastLimit, Target, Budget, RoundDown;
    CeilingIsLeastLimit(ctx, cfg, price);
    LeastLimitUnique(ctx, cfg, price, limit, Ceiling(ctx, cfg, price));
    TargetIsBudget(limit, d.confidence, multiplier);
    if limit > 0.0 {
      BudgetNonnegative(limit, d.confidence, multiplier);
      FloorDividesExactly(Target(limit, d.confidence, multiplier), price);
    }
  }

  lemma BudgetNonnegative(limit: real, confidence: real, multiplier: real)
    requires limit > 0.0 && confidence >= 0.0
    ensures Budget(limit, confidence, multiplier) >= 0.0
  {
    assert limit * confidence >= 0.0;
  }

  /** A sell is always the whole position, at the last close; without a positive price there is no order at all. */
  lemma SellsWhole(d: Decision, ctx: CandidateContext, cfg: GuardrailConfig, id: OrderId, multiplier: real)
    requires d.action.SellIt?
    ensures var priced, held := ctx.lastClose.Some? && ctx.lastClose.value > 0.0, ctx.alreadyHeld && ctx.heldQuantity.GetOr(0.0) > 0.0;
      Allocate(d, ctx, cfg, id, multiplier)
      == if priced && held then Some(OrderRequest(id, ctx.symbol, Sell, Limit, ctx.heldQuantity, ctx.lastClose, None)) else None
  {
  }

  lemma NoPriceNoOrder(d: Decision, ctx: CandidateContext, cfg: GuardrailConfig, id: OrderId, multiplier: real)
    requires d.action.Hold? || ctx.lastClose.None? || ctx.lastClose.value <= 0.0
    ensures Allocate(d, ctx, cfg, id, multiplier) == None
  {
  }

  /** Room measured without the order implies weight within the limit measured with it: the two denominators agree in effect. */
  lemma RoomImpliesWeight(weight: real, held: real, equity: real, notional: real)
    requires weight >= 0.0 && notional >= 0.0 && equity + notional > 0.0
    requires notional <= weight * equity - held
    ensures (held + notional) / (equity + notional) <= weight
  {
    assert weight * (equity + notional) == weight * equity + weight * notional;
    assert weight * notional >= 0.0;
    DivLe(held + notional, weight, equity + notional);
  }

  lemma WeightGuardPasses(ctx: CandidateContext, cfg: GuardrailConfig, price: real, notional: real)
    requires cfg.perSymbolMaxWeight >= 0.0 && ctx.portfolioValue.Some?
    requires 0.0 < notional <= WeightRoom(ctx, cfg, price)
    ensures var held := ctx.heldQuantity.GetOr(0.0) * price;
      var total := ctx.portfolioValue.value + ctx.cash.GetOr(0.0);
      total + notional <= 0.0 || (held + notional) / (total + notional) <= cfg.perSymbolMaxWeight
  {
    var held := ctx.heldQuantity.GetOr(0.0) * price;
    var total := ctx.portfolioValue.value + ctx.cash.GetOr(0.0);
    if total + notional > 0.0 {
      RoomImpliesWeight(cfg.perSymbolMaxWeight, held, total, notional);
    }
  }
}
