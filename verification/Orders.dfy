/** Order requests and results, and the hard guardrails every order passes before anything is sent. */
module Orders {
  import opened Prelude
  import opened RealArith

  datatype Side = Buy | Sell

  datatype OrderType = Limit | Market

  datatype TradingMode = DryRunMode | LiveMode

  datatype OrderStatus = DryRun | Rejected | Submitted | Failed | Duplicate

  /** Client order ids are only compared for equality. */
  type OrderId = nat

  datatype OrderRequest = OrderRequest(
    clientOrderId: OrderId, symbol: Symbol, side: Side, orderType: OrderType,
    quantity: Option<real>, price: Option<real>, orderAmount: Option<real>)
  {
    /** The cost estimate: the order amount when given, else quantity times price, else unknown. */
    function EstimatedNotional(): Option<real> {
      if orderAmount.Some? then orderAmount
      else if quantity.Some? && price.Some? then Some(quantity.value * price.value)
      else None
    }
  }

  datatype OrderResult = OrderResult(
    clientOrderId: OrderId, status: OrderStatus, mode: TradingMode, request: OrderRequest,
    violations: seq<Code>, tossOrderId: Option<nat>, createdAt: Instant)

  /** The codes of the guard violations, in the order the guards run. */
  datatype Code =
    | KillSwitch
    | CircuitBreaker
    | MarketClosed
    | UnboundedCost
    | PerOrderMax
    | DailyBuyCap
    | MaxPositions
    | PerSymbolWeight

  datatype GuardrailConfig = GuardrailConfig(
    perOrderMax: real, dailyBuyCap: real, maxPositions: int, perSymbolMaxWeight: real,
    marketOpen: int, marketClose: int, enforceMarketHours: bool, holidays: set<int>)

  datatype GuardrailContext = GuardrailContext(
    now: Instant, killSwitch: bool, openPositions: nat, heldSymbols: set<Symbol>,
    dailyBuyUsed: real, portfolioValue: Option<real>, symbolCurrentValue: real,
    circuitBreakerHalt: bool)

  function GuardKillSwitch(order: OrderRequest, ctx: GuardrailContext, cfg: GuardrailConfig): Option<Code> {
    if ctx.killSwitch then Some(KillSwitch) else None
  }

  function GuardCircuitBreaker(order: OrderRequest, ctx: GuardrailContext, cfg: GuardrailConfig): Option<Code> {
    if !order.side.Buy? then None
    else if ctx.circuitBreakerHalt then Some(CircuitBreaker)
    else None
  }

  function GuardMarketHours(order: OrderRequest, ctx: GuardrailContext, cfg: GuardrailConfig): Option<Code> {
    if !cfg.enforceMarketHours then None
    else if Weekday(DayOf(ctx.now)) >= 5 then Some(MarketClosed)
    else if DayOf(ctx.now) in cfg.holidays then Some(MarketClosed)
    else if !(cfg.marketOpen <= TimeOfDay(ctx.now) <= cfg.marketClose) then Some(MarketClosed)
    else None
  }

  function GuardPerOrderMax(order: OrderRequest, ctx: GuardrailContext, cfg: GuardrailConfig): Option<Code> {
    if !order.side.Buy? then None
    else
      match order.EstimatedNotional()
      case None => Some(UnboundedCost)
      case Some(notional) => if notional > cfg.perOrderMax then Some(PerOrderMax) else None
  }

  function GuardDailyBuyCap(order: OrderRequest, ctx: GuardrailContext, cfg: GuardrailConfig): Option<Code> {
    if !order.side.Buy? then None
    else if ctx.dailyBuyUsed + order.EstimatedNotional().GetOr(0.0) > cfg.dailyBuyCap then Some(DailyBuyCap)
    else None
  }

  function GuardMaxPositions(order: OrderRequest, ctx: GuardrailContext, cfg: GuardrailConfig): Option<Code> {
    if !order.side.Buy? then None
    else if order.symbol in ctx.heldSymbols then None
    else if ctx.openPositions + 1 > cfg.maxPositions then Some(MaxPositions)
    else None
  }

  function GuardPerSymbolWeight(order: OrderRequest, ctx: GuardrailContext, cfg: GuardrailConfig): Option<Code> {
    if !order.side.Buy? then None
    else if ctx.portfolioValue.None? then None
    else
      var notional := order.EstimatedNotional().GetOr(0.0);
      var resulting := ctx.symbolCurrentValue + notional;
      var denom := ctx.portfolioValue.value + notional;
      if denom <= 0.0 then None
      else if resulting / denom > cfg.perSymbolMaxWeight then Some(PerSymbolWeight)
      else None
  }

  function Listed(v: Option<Code>): seq<Code> {
    if v.Some? then [v.value] else []
  }

  /** Every guard runs, in this order; the order passes when the list is empty. */
  function RunGuardrails(order: OrderRequest, ctx: GuardrailContext, cfg: GuardrailConfig): seq<Code> {
    Listed(GuardKillSwitch(order, ctx, cfg))
    + Listed(GuardCircuitBreaker(order, ctx, cfg))
    + Listed(GuardMarketHours(order, ctx, cfg))
    + Listed(GuardPerOrderMax(order, ctx, cfg))
    + Listed(GuardDailyBuyCap(order, ctx, cfg))
    + Listed(GuardMaxPositions(order, ctx, cfg))
    + Listed(GuardPerSymbolWeight(order, ctx, cfg))
  }

  predicate MarketIsOpen(now: Instant, cfg: GuardrailConfig) {
    !cfg.enforceMarketHours
    || (Weekday(DayOf(now)) < 5
        && DayOf(now) !in cfg.holidays
        && cfg.marketOpen <= TimeOfDay(now) <= cfg.marketClose)
  }

  /** The guard a code belongs to. */
  function GuardOf(code: Code, order: OrderRequest, ctx: GuardrailContext, cfg: GuardrailConfig): Option<Code> {
    match code
    case KillSwitch => GuardKillSwitch(order, ctx, cfg)
    case CircuitBreaker => GuardCircuitBreaker(order, ctx, cfg)
    case MarketClosed => GuardMarketHours(order, ctx, cfg)
    case UnboundedCost | PerOrderMax => GuardPerOrderMax(order, ctx, cfg)
    case DailyBuyCap => GuardDailyBuyCap(order, ctx, cfg)
    case MaxPositions => GuardMaxPositions(order, ctx, cfg)
    case PerSymbolWeight => GuardPerSymbolWeight(order, ctx, cfg)
  }

  /** A code is reported exactly when its own guard fires with it. */
  lemma CodeReported(order: OrderRequest, ctx: GuardrailContext, cfg: GuardrailConfig, code: Code)
    ensures code in RunGuardrails(order, ctx, cfg) <==> GuardOf(code, order, ctx, cfg) == Some(code)
  {
    hide GuardKillSwitch, GuardCircuitBreaker, GuardMarketHours, GuardPerOrderMax, GuardDailyBuyCap, GuardMaxPositions,
      GuardPerSymbolWeight, RunGuardrails;
    GuardCodes(order, ctx, cfg);
    ReportedBySome(order, ctx, cfg, code);
  }

  lemma ReportedBySome(order: OrderRequest, ctx: GuardrailContext, cfg: GuardrailConfig, code: Code)
    ensures code in RunGuardrails(order, ctx, cfg)
      <==> code in Listed(GuardKillSwitch(order, ctx, cfg)) || code in Listed(GuardCircuitBreaker(order, ctx, cfg))
           || code in Listed(GuardMarketHours(order, ctx, cfg)) || code in Listed(GuardPerOrderMax(order, ctx, cfg))
           || code in Listed(GuardDailyBuyCap(order, ctx, cfg)) || code in Listed(GuardMaxPositions(order, ctx, cfg))
           || code in Listed(GuardPerSymbolWeight(order, ctx, cfg))
  {
    hide GuardKillSwitch, GuardCircuitBreaker, GuardMarketHours, GuardPerOrderMax, GuardDailyBuyCap, GuardMaxPositions,
      GuardPerSymbolWeight, Listed;
  }

  /** Every guard answers with codes of its own only. */
  lemma GuardCodes(order: OrderRequest, ctx: GuardrailContext, cfg: GuardrailConfig)
    ensures GuardKillSwitch(order, ctx, cfg) in [None, Some(KillSwitch)]
    ensures GuardCircuitBreaker(order, ctx, cfg) in [None, Some(CircuitBreaker)]
    ensures GuardMarketHours(order, ctx, cfg) in [None, Some(MarketClosed)]
    ensures GuardPerOrderMax(order, ctx, cfg) in [None, Some(UnboundedCost), Some(PerOrderMax)]
    ensures GuardDailyBuyCap(order, ctx, cfg) in [None, Some(DailyBuyCap)]
    ensures GuardMaxPositions(order, ctx, cfg) in [None, Some(MaxPositions)]
    ensures GuardPerSymbolWeight(order, ctx, cfg) in [None, Some(PerSymbolWeight)]
  {
    hide OrderRequest.EstimatedNotional;
  }

  /** Liquidation stays open: a sell is stopped only by the kill switch or a closed market. */
  lemma SellStoppedOnlyBy(order: OrderRequest, ctx: GuardrailContext, cfg: GuardrailConfig)
    requires order.side.Sell?
    ensures RunGuardrails(order, ctx, cfg) == [] <==> !ctx.killSwitch && MarketIsOpen(ctx.now, cfg)
    ensures forall c :: c in RunGuardrails(order, ctx, cfg) ==> c.KillSwitch? || c.MarketClosed?
  {
  }

  /** What is left of the weight limit for one more buy, as a product: no division, and no limit on an empty account. */
  predicate WeightFits(ctx: GuardrailContext, cfg: GuardrailConfig, notional: real) {
    ctx.portfolioValue.Some? && ctx.portfolioValue.value + notional > 0.0 ==>
      ctx.symbolCurrentValue + notional <= cfg.perSymbolMaxWeight * (ctx.portfolioValue.value + notional)
  }

  lemma WeightGuardAsProduct(order: OrderRequest, ctx: GuardrailContext, cfg: GuardrailConfig, notional: real)
    requires order.side.Buy? && order.EstimatedNotional() == Some(notional)
    ensures GuardPerSymbolWeight(order, ctx, cfg).None? <==> WeightFits(ctx, cfg, notional)
  {
    hide OrderRequest.EstimatedNotional;
    if ctx.portfolioValue.Some? && ctx.portfolioValue.value + notional > 0.0 {
      DivLe(ctx.symbolCurrentValue + notional, cfg.perSymbolMaxWeight, ctx.portfolioValue.value + notional);
    }
  }

  /** A market with enforced hours is open on no holiday and no weekend; day 6 and day 7 of the calendar are the first one. */
  lemma ClosedOnWeekends(cfg: GuardrailConfig, week: int, time: int, day: int)
    requires cfg.enforceMarketHours && 0 <= time < MICROS_PER_DAY
    ensures !MarketIsOpen((6 + 7 * week) * MICROS_PER_DAY + time, cfg) && !MarketIsOpen((7 + 7 * week) * MICROS_PER_DAY + time, cfg)
    ensures 1 <= day <= 5 ==>
      (MarketIsOpen((day + 7 * week) * MICROS_PER_DAY + time, cfg)
       <==> day + 7 * week !in cfg.holidays && cfg.marketOpen <= time <= cfg.marketClose)
  {
    hide DayOf, TimeOfDay, Weekday;
    PartsOfInstant(6 + 7 * week, time);
    PartsOfInstant(7 + 7 * week, time);
    PartsOfInstant(day + 7 * week, time);
    WeekdayRepeats(6, week);
    WeekdayRepeats(7, week);
    if 1 <= day <= 5 {
      WeekdayRepeats(day, week);
    }
  }

  lemma PartsOfInstant(day: int, time: int)
    requires 0 <= time < MICROS_PER_DAY
    ensures DayOf(day * MICROS_PER_DAY + time) == day && TimeOfDay(day * MICROS_PER_DAY + time) == time
  {
  }

  lemma WeekdayRepeats(day: int, week: int)
    requires 1 <= day <= 7
    ensures Weekday(day + 7 * week) == day - 1
  {
  }

  /** The cost of an order is n: its amount when given, else quantity times price. */
  predicate Costs(order: OrderRequest, n: real) {
    order.orderAmount == Some(n)
    || (order.orderAmount.None? && order.quantity.Some? && order.price.Some? && n == order.quantity.value * order.price.value)
  }

  lemma EstimateIsCost(order: OrderRequest, n: real)
    ensures order.EstimatedNotional() == Some(n) <==> Costs(order, n)
  {
  }

  /** A buy passes exactly when every limit leaves room for it: nothing is waved through, and nothing else stops it. */
  lemma BuyPassesExactlyWhen(order: OrderRequest, ctx: GuardrailContext, cfg: GuardrailConfig)
    requires order.side.Buy?
    ensures RunGuardrails(order, ctx, cfg) == [] <==>
      !ctx.killSwitch && !ctx.circuitBreakerHalt && MarketIsOpen(ctx.now, cfg)
      && (exists n :: Costs(order, n)
                      && n <= cfg.perOrderMax && ctx.dailyBuyUsed + n <= cfg.dailyBuyCap && WeightFits(ctx, cfg, n))
      && (order.symbol in ctx.heldSymbols || ctx.openPositions < cfg.maxPositions)
  {
    hide GuardPerSymbolWeight, WeightFits, OrderRequest.EstimatedNotional, Costs;
    forall n ensures order.EstimatedNotional() == Some(n) <==> Costs(order, n) {
      EstimateIsCost(order, n);
    }
    if order.EstimatedNotional().Some? {
      WeightGuardAsProduct(order, ctx, cfg, order.EstimatedNotional().value);
      assert Costs(order, order.EstimatedNotional().value);
    }
  }

  /** A buy that passes is bounded by the per-order limit and what is left of the daily cap. */
  lemma PassingBuyIsBounded(order: OrderRequest, ctx: GuardrailContext, cfg: GuardrailConfig)
    requires order.side.Buy? && RunGuardrails(order, ctx, cfg) == []
    ensures order.EstimatedNotional().Some? && Costs(order, order.EstimatedNotional().value)
    ensures order.EstimatedNotional().value <= cfg.perOrderMax
    ensures ctx.dailyBuyUsed + order.EstimatedNotional().value <= cfg.dailyBuyCap
    ensures !ctx.killSwitch && !ctx.circuitBreakerHalt
  {
  }
}
