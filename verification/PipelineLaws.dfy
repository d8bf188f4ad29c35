/** What every tick guarantees about the day's buy total and about the sizes it proposes. */
module PipelineLaws {
  import opened Prelude
  import opened Orders
  import opened Breaker
  import opened OrderLayer
  import opened Paper
  import opened Allocator
  import opened Pipeline

  // ---------------------------------------------------------------- the day's buy total

  /** What the loop adds to its total for a result is the money the result stands for. */
  lemma CountedIsSpent(o: OrderResult)
    ensures Spends(o) == if CountsTowardCap(o) then o.request.EstimatedNotional().GetOr(0.0) else 0.0
  {
  }

  /** A submit adds exactly what it accepted, and never carries the total past the cap. */
  lemma SubmitStepUsed(cfg: GuardrailConfig, st: LoopState, req: OrderRequest, gctx: GuardrailContext, reply: Reply)
    requires gctx.dailyBuyUsed == st.used
    ensures var after := SubmitStep(cfg, st, req, gctx, reply);
      after.used - st.used == Spent(after.orders) - Spent(st.orders)
      && after.used <= Max(st.used, cfg.dailyBuyCap)
      && st.orders <= after.orders
  {
    hide RunGuardrails, Spends, OrderRequest.EstimatedNotional;
    var (svc, res) := SubmitSpec(cfg, st.svc, req, gctx, reply);
    CountedIsSpent(res);
    assert (st.orders + [res])[..|st.orders|] == st.orders;
    if CountsTowardCap(res) {
      AcceptedBuyWithinLimits(cfg, st.svc, req, gctx, reply);
    }
  }

  lemma LoopStepUsed(cfg: GuardrailConfig, t: TickInput, base: GuardrailContext, st: LoopState, d: Decision, n: nat)
    ensures var after := LoopStep(cfg, t, base, st, d, n);
      after.used - st.used == Spent(after.orders) - Spent(st.orders)
      && after.used <= Max(st.used, cfg.dailyBuyCap)
      && st.orders <= after.orders
  {
    hide Allocate, SubmitStep, Candidates;
    var found := Find(Candidates(t), d.symbol);
    if found.Some? {
      var ctx := found.value;
      var proposal := Allocate(d, ctx, cfg, t.ids(n), t.multiplier);
      if proposal.Some? {
        SubmitStepUsed(cfg, st, proposal.value, GuardContext(base, ctx, st.used), t.replies(n));
      }
    }
  }

  lemma {:induction false} LoopUsed(cfg: GuardrailConfig, t: TickInput, base: GuardrailContext, start: LoopState, ds: seq<Decision>)
    ensures var after := Loop(cfg, t, base, start, ds);
      after.used - start.used == Spent(after.orders) - Spent(start.orders)
      && after.used <= Max(start.used, cfg.dailyBuyCap)
      && start.orders <= after.orders
  {
    hide LoopStep;
    if ds != [] {
      var n := |ds| - 1;
      LoopUsed(cfg, t, base, start, ds[..n]);
      LoopStepUsed(cfg, t, base, Loop(cfg, t, base, start, ds[..n]), ds[n], n);
    }
  }

  /**
   * The daily cap inside a tick, whatever the judge says: the running total is the amount handed in plus
   * exactly the buys accepted, and it ends within the cap unless it already started beyond it.
   */
  lemma {:induction false} TickStaysWithinCap(cfg: GuardrailConfig, bcfg: BreakerConfig, s: Service, t: TickInput)
    ensures var after := RunTickSpec(cfg, bcfg, s, t);
      after.used == t.dailyUsed + Spent(after.orders)
      && (t.dailyUsed <= cfg.dailyBuyCap ==> t.dailyUsed + Spent(after.orders) <= cfg.dailyBuyCap)
      && (t.dailyUsed > cfg.dailyBuyCap ==> after.used <= t.dailyUsed)
  {
    hide AssessSpec, LoopStep, Decisions;
    if !(t.watchlistEmpty && t.holdings.items == []) {
      var assessed := s.(breaker := AssessSpec(bcfg, s.breaker, Equity(t), t.holdings.dailyPlRate, DayOf(t.now)));
      LoopUsed(cfg, t, BaseContext(t, s.killSwitch), LoopState(assessed, [], [], t.dailyUsed), Decisions(t));
    }
  }

  // ---------------------------------------------------------------- ids

  /** The ids of a tick are new to the service and differ from each other. */
  ghost predicate FreshIds(t: TickInput, s: Service) {
    (forall n: nat :: t.ids(n) !in s.seen) && (forall n: nat, m: nat :: n != m ==> t.ids(n) != t.ids(m))
  }

  /** Ids used so far: those seen before the tick and those of the decisions already taken. */
  ghost predicate IdsUpTo(svc: Service, s: Service, t: TickInput, n: nat) {
    forall id :: id in svc.seen ==> id in s.seen || exists k: nat :: k < n && t.ids(k) == id
  }

  lemma VerdictId(cfg: GuardrailConfig, s: Service, req: OrderRequest, gctx: GuardrailContext, reply: Reply)
    ensures Verdict(cfg, s, req, gctx, reply).0.clientOrderId == req.clientOrderId
  {
  }

  /** With each symbol offered once, a candidate is found by its symbol. */
  lemma {:induction false} FindHit(cs: seq<CandidateContext>, i: nat)
    requires OncePerSymbol(cs) && i < |cs|
    ensures Find(cs, cs[i].symbol) == Some(cs[i])
  {
    if i > 0 {
      assert cs[0].symbol != cs[i].symbol;
      FindHit(cs[1..], i - 1);
    }
  }

  // ---------------------------------------------------------------- what the loop leaves alone

  /** Switch, mode and breaker are as before, and in the dry-run mode nothing was handed to the executor. */
  ghost predicate OnlyRecorded(before: Service, after: Service) {
    after.breaker == before.breaker && after.killSwitch == before.killSwitch && after.mode == before.mode
    && (before.mode.DryRunMode? ==> after.placed == before.placed)
  }

  lemma LoopStepOnlyRecords(cfg: GuardrailConfig, t: TickInput, base: GuardrailContext, st: LoopState, d: Decision, n: nat)
    ensures OnlyRecorded(st.svc, LoopStep(cfg, t, base, st, d, n).svc)
  {
    hide Allocate, Candidates, RunGuardrails;
  }

  lemma {:induction false} LoopOnlyRecords(cfg: GuardrailConfig, t: TickInput, base: GuardrailContext, start: LoopState, ds: seq<Decision>)
    ensures OnlyRecorded(start.svc, Loop(cfg, t, base, start, ds).svc)
  {
    hide LoopStep;
    if ds != [] {
      var n := |ds| - 1;
      LoopOnlyRecords(cfg, t, base, start, ds[..n]);
      LoopStepOnlyRecords(cfg, t, base, Loop(cfg, t, base, start, ds[..n]), ds[n], n);
    }
  }

  /** A tick moves the breaker by one assessment of the equity it was shown, and otherwise only records orders. */
  lemma {:induction false} TickAssessesOnce(cfg: GuardrailConfig, bcfg: BreakerConfig, s: Service, t: TickInput)
    ensures var after := RunTickSpec(cfg, bcfg, s, t).svc;
      if t.watchlistEmpty && t.holdings.items == [] then after == s
      else OnlyRecorded(s.(breaker := AssessSpec(bcfg, s.breaker,
          if t.cash.Some? then Some(t.cash.value + t.holdings.marketValue) else None, t.holdings.dailyPlRate, DayOf(t.now))), after)
  {
    hide AssessSpec, LoopStep, Decisions, Loop;
    if !(t.watchlistEmpty && t.holdings.items == []) {
      var assessed := s.(breaker := AssessSpec(bcfg, s.breaker, Equity(t), t.holdings.dailyPlRate, DayOf(t.now)));
      LoopOnlyRecords(cfg, t, BaseContext(t, s.killSwitch), LoopState(assessed, [], [], t.dailyUsed), Decisions(t));
    }
  }

  // ---------------------------------------------------------------- sizes and the matching guards

  predicate SizingCode(c: Code) {
    c.UnboundedCost? || c.PerOrderMax? || c.PerSymbolWeight?
  }

  /** A candidate of this tick measures its weight on the tick's own assets. */
  ghost predicate ContextOfTick(ctx: CandidateContext, t: TickInput) {
    ctx.portfolioValue == Some(t.holdings.marketValue) && ctx.cash == t.cash
  }

  lemma GuardSeesRoom(cfg: GuardrailConfig, t: TickInput, base: GuardrailContext, ctx: CandidateContext, req: OrderRequest, used: real)
    requires cfg.perSymbolMaxWeight >= 0.0 && ContextOfTick(ctx, t)
    requires base.portfolioValue == Some(t.holdings.marketValue + t.cash.GetOr(0.0))
    requires ctx.lastClose.Some? && req.EstimatedNotional().Some?
    requires 0.0 < req.EstimatedNotional().value <= WeightRoom(ctx, cfg, ctx.lastClose.value)
    ensures GuardPerSymbolWeight(req, GuardContext(base, ctx, used), cfg) == None
  {
    hide WeightRoom, OrderRequest.EstimatedNotional;
    WeightGuardPasses(ctx, cfg, ctx.lastClose.value, req.EstimatedNotional().value);
  }

  /**
   * The allocator's proposals pass the guards that mirror its ceilings: a buy sized for any confidence in
   * [0,1] and any multiplier fits the per-order limit and the cash, and neither the cost, the per-order nor the
   * weight guard can reject it, although sizing and guard measure the weight against different totals.
   */
  lemma {:induction false} ProposalPassesSizingGuards(
    cfg: GuardrailConfig, t: TickInput, base: GuardrailContext, ctx: CandidateContext, d: Decision, id: OrderId, used: real)
    requires cfg.perSymbolMaxWeight >= 0.0 && 0.0 <= d.confidence <= 1.0 && d.action.BuyIt? && ContextOfTick(ctx, t)
    requires base.portfolioValue == Some(t.holdings.marketValue + t.cash.GetOr(0.0))
    requires Allocate(d, ctx, cfg, id, t.multiplier).Some?
    ensures var req := Allocate(d, ctx, cfg, id, t.multiplier).value; var notional := req.EstimatedNotional();
      notional.Some? && 0.0 < notional.value <= cfg.perOrderMax
      && (t.cash.Some? ==> notional.value <= t.cash.value)
      && GuardPerOrderMax(req, GuardContext(base, ctx, used), cfg) == None
      && GuardPerSymbolWeight(req, GuardContext(base, ctx, used), cfg) == None
  {
    hide Allocate, WeightRoom, OrderRequest.EstimatedNotional, GuardPerSymbolWeight;
    BuyWithinCeiling(d, ctx, cfg, id, t.multiplier);
    GuardSeesRoom(cfg, t, base, ctx, Allocate(d, ctx, cfg, id, t.multiplier).value, used);
  }

  lemma {:induction false} FindFrom(cs: seq<CandidateContext>, s: Symbol)
    ensures Find(cs, s).Some? ==> Find(cs, s).value in cs && Find(cs, s).value.symbol == s
    ensures Find(cs, s).None? ==> forall i :: 0 <= i < |cs| ==> cs[i].symbol != s
  {
    if cs != [] {
      FindFrom(cs[1..], s);
    }
  }

  lemma CandidatesOfTick(t: TickInput, ctx: CandidateContext)
    requires ctx in Candidates(t)
    ensures ContextOfTick(ctx, t)
  {
  }

  /** An order is fairly sized when, unless it repeats an old one, a buy among them broke no sizing guard and fits the limits. */
  ghost predicate FairlySized(cfg: GuardrailConfig, t: TickInput, o: OrderResult) {
    o.request.side.Buy? && !o.status.Duplicate? ==>
      (forall c :: c in o.violations ==> !SizingCode(c))
      && o.request.EstimatedNotional().Some?
      && o.request.EstimatedNotional().value <= cfg.perOrderMax
      && (t.cash.Some? ==> o.request.EstimatedNotional().value <= t.cash.value)
  }

  ghost predicate AllFairlySized(cfg: GuardrailConfig, t: TickInput, orders: seq<OrderResult>) {
    forall i :: 0 <= i < |orders| ==> FairlySized(cfg, t, orders[i])
  }

  ghost predicate Confident(ds: seq<Decision>) {
    forall i :: 0 <= i < |ds| ==> 0.0 <= ds[i].confidence <= 1.0
  }

  lemma {:induction false} ForcedConfident(forced: seq<Symbol>, cs: seq<CandidateContext>)
    ensures Confident(ForcedDecisions(forced, cs))
  {
    if forced != [] {
      ForcedConfident(forced[1..], cs);
    }
  }

  lemma {:induction false} JudgedConfident(t: TickInput, cs: seq<CandidateContext>)
    ensures Confident(JudgedDecisions(t, cs))
  {
    if cs != [] {
      JudgedConfident(t, cs[1..]);
    }
  }

  lemma VerdictViolations(cfg: GuardrailConfig, s: Service, req: OrderRequest, gctx: GuardrailContext, reply: Reply)
    requires req.side.Buy?
    requires GuardPerOrderMax(req, gctx, cfg) == None && GuardPerSymbolWeight(req, gctx, cfg) == None
    ensures forall c :: c in Verdict(cfg, s, req, gctx, reply).0.violations ==> !SizingCode(c)
  {
    hide GuardPerOrderMax, GuardPerSymbolWeight, RunGuardrails;
    var eff := EffectiveContext(gctx, s.killSwitch, s.breaker.Tripped());
    SizingGuardsIgnoreSwitches(cfg, req, gctx, eff);
    SizingCodesUnreported(cfg, req, eff);
  }

  lemma SizingCodesUnreported(cfg: GuardrailConfig, req: OrderRequest, ctx: GuardrailContext)
    requires req.side.Buy?
    requires GuardPerOrderMax(req, ctx, cfg) == None && GuardPerSymbolWeight(req, ctx, cfg) == None
    ensures forall c :: c in RunGuardrails(req, ctx, cfg) ==> !SizingCode(c)
  {
    hide GuardPerOrderMax, GuardPerSymbolWeight;
  }

  lemma SizingGuardsIgnoreSwitches(cfg: GuardrailConfig, req: OrderRequest, a: GuardrailContext, b: GuardrailContext)
    requires b == a.(killSwitch := b.killSwitch, circuitBreakerHalt := b.circuitBreakerHalt)
    ensures GuardPerOrderMax(req, a, cfg) == GuardPerOrderMax(req, b, cfg)
    ensures GuardPerSymbolWeight(req, a, cfg) == GuardPerSymbolWeight(req, b, cfg)
  {
  }

  lemma {:induction false} LoopStepFairlySized(cfg: GuardrailConfig, t: TickInput, base: GuardrailContext, st: LoopState, d: Decision, n: nat)
    requires cfg.perSymbolMaxWeight >= 0.0 && 0.0 <= d.confidence <= 1.0
    requires base.portfolioValue == Some(t.holdings.marketValue + t.cash.GetOr(0.0))
    requires AllFairlySized(cfg, t, st.orders)
    ensures AllFairlySized(cfg, t, LoopStep(cfg, t, base, st, d, n).orders)
  {
    hide Allocate, Candidates, Verdict, GuardPerOrderMax, GuardPerSymbolWeight, OrderRequest.EstimatedNotional;
    var found := Find(Candidates(t), d.symbol);
    if found.Some? && !(d.action.BuyIt? && !t.gate(d)) {
      FindFrom(Candidates(t), d.symbol);
      var ctx := found.value;
      CandidatesOfTick(t, ctx);
      var proposal := Allocate(d, ctx, cfg, t.ids(n), t.multiplier);
      if proposal.Some? {
        var gctx := GuardContext(base, ctx, st.used);
        AllocateShape(d, ctx, cfg, t.ids(n), t.multiplier);
        if d.action.BuyIt? {
          ProposalPassesSizingGuards(cfg, t, base, ctx, d, t.ids(n), st.used);
          VerdictViolations(cfg, st.svc, proposal.value, gctx, t.replies(n));
        }
        VerdictIsAbout(cfg, st.svc, proposal.value, gctx, t.replies(n));
      }
    }
  }

  lemma AllocateShape(d: Decision, ctx: CandidateContext, cfg: GuardrailConfig, id: OrderId, multiplier: real)
    requires Allocate(d, ctx, cfg, id, multiplier).Some?
    ensures var req := Allocate(d, ctx, cfg, id, multiplier).value;
      (req.side.Buy? <==> d.action.BuyIt?) && req.symbol == ctx.symbol && req.clientOrderId == id
      && req.price.Some? && req.price.value > 0.0 && req.quantity.Some? && req.quantity.value > 0.0
      && req.orderAmount.None?
  {
  }

  lemma VerdictIsAbout(cfg: GuardrailConfig, s: Service, req: OrderRequest, gctx: GuardrailContext, reply: Reply)
    ensures var res := Verdict(cfg, s, req, gctx, reply).0; res.request == req && !res.status.Duplicate?
  {
  }

  lemma {:induction false} LoopFairlySized(cfg: GuardrailConfig, t: TickInput, base: GuardrailContext, start: LoopState, ds: seq<Decision>)
    requires cfg.perSymbolMaxWeight >= 0.0 && Confident(ds) && AllFairlySized(cfg, t, start.orders)
    requires base.portfolioValue == Some(t.holdings.marketValue + t.cash.GetOr(0.0))
    ensures AllFairlySized(cfg, t, Loop(cfg, t, base, start, ds).orders)
  {
    hide LoopStep;
    if ds != [] {
      var n := |ds| - 1;
      LoopFairlySized(cfg, t, base, start, ds[..n]);
      LoopStepFairlySized(cfg, t, base, Loop(cfg, t, base, start, ds[..n]), ds[n], n);
    }
  }

  /** Over a whole tick and any judge, no buy is rejected for its size, and every buy fits the per-order limit and the cash. */
  lemma {:induction false} TickBuysFairlySized(cfg: GuardrailConfig, bcfg: BreakerConfig, s: Service, t: TickInput)
    requires cfg.perSymbolMaxWeight >= 0.0
    ensures AllFairlySized(cfg, t, RunTickSpec(cfg, bcfg, s, t).orders)
  {
    hide AssessSpec, LoopStep, Candidates;
    if !(t.watchlistEmpty && t.holdings.items == []) {
      var assessed := s.(breaker := AssessSpec(bcfg, s.breaker, Equity(t), t.holdings.dailyPlRate, DayOf(t.now)));
      ForcedConfident(t.forced, Candidates(t));
      JudgedConfident(t, Candidates(t));
      LoopFairlySized(cfg, t, BaseContext(t, s.killSwitch), LoopState(assessed, [], [], t.dailyUsed), Decisions(t));
    }
  }
}
