/** A whole paper tick: exits judged on the ledger, one pipeline run, and the intended orders filled. */
module PaperTick {
  import opened Prelude
  import opened RealArith
  import opened Sorting
  import opened Orders
  import opened Breaker
  import opened OrderLayer
  import opened Paper
  import opened Exits
  import opened Allocator
  import opened Pipeline
  import opened PipelineLaws
  import opened PaperLaws
  import opened PaperFills

  /** The pipeline is shown the paper ledger as its holdings and the paper cash as its buying power. */
  ghost predicate ShowsLedger(t: TickInput, l: Ledger, marks: map<Symbol, real>) {
    t.holdings.items == ItemsAlong(l, marks, Sorted(l.positions.Keys)) && t.cash == Some(l.cash)
  }

  /** The forced symbols are held positions whose last close is known and positive. */
  ghost predicate Sellable(t: TickInput, l: Ledger) {
    StrictlySorted(t.forced)
    && forall i :: 0 <= i < |t.forced| ==>
      t.forced[i] in l.positions && t.forced[i] in t.closes && t.closes[t.forced[i]] > 0.0
  }

  // ---------------------------------------------------------------- forced decisions become full sales

  lemma ItemIsCandidate(t: TickInput, i: nat)
    requires i < |t.holdings.items|
    ensures Candidates(t)[|t.buys| + i] == HeldCandidate(t.holdings.items[i], t)
  {
    hide HeldCandidate, BuyCandidate;
  }

  lemma HeldContext(t: TickInput, l: Ledger, marks: map<Symbol, real>, s: Symbol)
    requires s in l.positions && s in t.closes
    ensures var found := HeldCandidate(ItemOf(l, marks, s), t);
      found.alreadyHeld && found.symbol == s
      && found.heldQuantity == Some(l.positions[s].quantity) && found.lastClose == Some(t.closes[s])
  {
    hide PurchaseOf, ValueOf, Mark;
  }

  /** A held position is a candidate with its full quantity. */
  lemma HeldIsCandidate(t: TickInput, l: Ledger, marks: map<Symbol, real>, s: Symbol)
    requires ShowsLedger(t, l, marks) && OncePerSymbol(Candidates(t))
    requires s in l.positions && s in t.closes
    ensures var found := Find(Candidates(t), s);
      found.Some? && found.value.alreadyHeld && found.value.symbol == s
      && found.value.heldQuantity == Some(l.positions[s].quantity) && found.value.lastClose == Some(t.closes[s])
  {
    hide Sorted, Find, ItemOf, HeldCandidate, Candidates, OncePerSymbol;
    var keys := Sorted(l.positions.Keys);
    assert s in keys;
    var i :| 0 <= i < |keys| && keys[i] == s;
    assert t.holdings.items[i] == ItemOf(l, marks, s);
    ItemIsCandidate(t, i);
    HeldContext(t, l, marks, s);
    FindHit(Candidates(t), |t.buys| + i);
  }

  lemma {:induction false} ForcedInOrder(forced: seq<Symbol>, cs: seq<CandidateContext>)
    requires forall i :: 0 <= i < |forced| ==> Find(cs, forced[i]).Some?
    ensures |ForcedDecisions(forced, cs)| == |forced|
    ensures forall i :: 0 <= i < |forced| ==> ForcedDecisions(forced, cs)[i] == Decision(SellIt, forced[i], 1.0)
  {
    if forced != [] {
      assert forall i :: 0 <= i < |forced[1..]| ==> forced[1..][i] == forced[i + 1];
      ForcedInOrder(forced[1..], cs);
    }
  }

  lemma {:induction false} JudgedAvoidsForced(t: TickInput, cs: seq<CandidateContext>)
    ensures forall i :: 0 <= i < |JudgedDecisions(t, cs)| ==> JudgedDecisions(t, cs)[i].symbol !in t.forced
  {
    if cs != [] {
      JudgedAvoidsForced(t, cs[1..]);
    }
  }

  /** The intended sale of a whole position. */
  ghost predicate FullSale(o: OrderResult, l: Ledger, s: Symbol)
    requires s in l.positions
  {
    o.status.DryRun? && o.request.side.Sell? && o.request.symbol == s
    && o.request.quantity == Some(l.positions[s].quantity) && o.request.price.Some?
  }

  /** Forced positions are sold in full, first and in order, and no other order concerns them. */
  ghost predicate ForcedSold(orders: seq<OrderResult>, l: Ledger, forced: seq<Symbol>, n: nat)
    requires forall i :: 0 <= i < |forced| ==> forced[i] in l.positions
  {
    n <= |forced| && n <= |orders|
    && (forall i :: 0 <= i < n ==> FullSale(orders[i], l, forced[i]))
    && (forall i :: n <= i < |orders| ==> orders[i].request.symbol !in forced)
  }

  ghost predicate Quiet(s: Service) {
    s.mode.DryRunMode? && !s.killSwitch
  }

  lemma StepUsesItsId(cfg: GuardrailConfig, t: TickInput, base: GuardrailContext, st: LoopState, s: Service, d: Decision, n: nat)
    requires FreshIds(t, s) && IdsUpTo(st.svc, s, t, n) && Quiet(st.svc)
    ensures var after := LoopStep(cfg, t, base, st, d, n);
      IdsUpTo(after.svc, s, t, n + 1) && Quiet(after.svc)
      && (after.orders == st.orders
          || (|after.orders| == |st.orders| + 1 && after.orders[..|st.orders|] == st.orders
              && after.orders[|st.orders|].request.symbol == d.symbol))
  {
    hide Allocate, Candidates, Verdict;
    var found := Find(Candidates(t), d.symbol);
    if found.Some? {
      FindFrom(Candidates(t), d.symbol);
      var proposal := Allocate(d, found.value, cfg, t.ids(n), t.multiplier);
      if proposal.Some? {
        AllocateShape(d, found.value, cfg, t.ids(n), t.multiplier);
        VerdictIsAbout(cfg, st.svc, proposal.value, GuardContext(base, found.value, st.used), t.replies(n));
        VerdictId(cfg, st.svc, proposal.value, GuardContext(base, found.value, st.used), t.replies(n));
        assert t.ids(n) !in st.svc.seen;
      }
    }
  }

  lemma DryRunSale(cfg: GuardrailConfig, s: Service, req: OrderRequest, gctx: GuardrailContext, reply: Reply)
    requires Quiet(s) && req.side.Sell? && !gctx.killSwitch && MarketIsOpen(gctx.now, cfg) && req.clientOrderId !in s.seen
    ensures SubmitSpec(cfg, s, req, gctx, reply).1.status.DryRun? && SubmitSpec(cfg, s, req, gctx, reply).1.request == req
  {
    SellStoppedOnlyBy(req, EffectiveContext(gctx, s.killSwitch, s.breaker.Tripped()), cfg);
  }

  lemma ForcedStepSells(
    cfg: GuardrailConfig, t: TickInput, base: GuardrailContext, st: LoopState, s: Service, l: Ledger, marks: map<Symbol, real>,
    f: Symbol, n: nat)
    requires ShowsLedger(t, l, marks) && OncePerSymbol(Candidates(t)) && AllHeld(l.positions)
    requires f in l.positions && f in t.closes && t.closes[f] > 0.0
    requires FreshIds(t, s) && IdsUpTo(st.svc, s, t, n) && Quiet(st.svc)
    requires !base.killSwitch && MarketIsOpen(base.now, cfg)
    ensures var after := LoopStep(cfg, t, base, st, Decision(SellIt, f, 1.0), n);
      |after.orders| == |st.orders| + 1 && after.orders[..|st.orders|] == st.orders
      && FullSale(after.orders[|st.orders|], l, f)
  {
    hide Candidates, SubmitSpec, MarketIsOpen;
    HeldIsCandidate(t, l, marks, f);
    var ctx := Find(Candidates(t), f).value;
    var req := OrderRequest(t.ids(n), f, Sell, Limit, ctx.heldQuantity, ctx.lastClose, None);
    assert Allocate(Decision(SellIt, f, 1.0), ctx, cfg, t.ids(n), t.multiplier) == Some(req);
    assert t.ids(n) !in st.svc.seen;
    DryRunSale(cfg, st.svc, req, GuardContext(base, ctx, st.used), t.replies(n));
  }

  ghost predicate TickReady(cfg: GuardrailConfig, t: TickInput, base: GuardrailContext, s: Service, l: Ledger, marks: map<Symbol, real>) {
    ShowsLedger(t, l, marks) && OncePerSymbol(Candidates(t)) && AllHeld(l.positions) && Sellable(t, l)
    && FreshIds(t, s) && !base.killSwitch && MarketIsOpen(base.now, cfg)
  }

  lemma {:induction false} LoopSellsForced(
    cfg: GuardrailConfig, t: TickInput, base: GuardrailContext, start: LoopState, s: Service, l: Ledger, marks: map<Symbol, real>,
    ds: seq<Decision>)
    requires TickReady(cfg, t, base, s, l, marks)
    requires start.orders == [] && Quiet(start.svc) && start.svc.seen == s.seen
    requires forall i :: 0 <= i < |ds| && i < |t.forced| ==> ds[i] == Decision(SellIt, t.forced[i], 1.0)
    requires forall i :: |t.forced| <= i < |ds| ==> ds[i].symbol !in t.forced
    ensures var after := Loop(cfg, t, base, start, ds);
      var n := if |ds| < |t.forced| then |ds| else |t.forced|;
      ForcedSold(after.orders, l, t.forced, n) && (|ds| <= |t.forced| ==> |after.orders| == |ds|)
      && Quiet(after.svc) && IdsUpTo(after.svc, s, t, |ds|)
  {
    hide LoopStep, Candidates, ShowsLedger, MarketIsOpen, FreshIds;
    if ds != [] {
      var n := |ds| - 1;
      LoopSellsForced(cfg, t, base, start, s, l, marks, ds[..n]);
      var st := Loop(cfg, t, base, start, ds[..n]);
      StepUsesItsId(cfg, t, base, st, s, ds[n], n);
      if n < |t.forced| {
        ForcedStepSells(cfg, t, base, st, s, l, marks, t.forced[n], n);
      }
    }
  }

  lemma FirstForcedIsHeld(t: TickInput, l: Ledger)
    requires Sellable(t, l)
    ensures t.forced == [] || t.forced[0] in l.positions.Keys
  {
    if t.forced != [] {
      assert t.forced[0] in t.forced;
    }
  }

  lemma NothingHeldNothingForced(t: TickInput, l: Ledger, marks: map<Symbol, real>)
    requires ShowsLedger(t, l, marks) && Sellable(t, l) && t.holdings.items == []
    ensures t.forced == []
  {
    hide Sorted, ItemsAlong;
    FirstForcedIsHeld(t, l);
    assert |l.positions.Keys| == 0;
  }

  /** The orders of a tick: the forced positions sold in full, first and in order, and nothing else about them. */
  lemma {:induction false} TickSellsForced(
    cfg: GuardrailConfig, bcfg: BreakerConfig, s: Service, t: TickInput, l: Ledger, marks: map<Symbol, real>)
    requires TickReady(cfg, t, BaseContext(t, s.killSwitch), s, l, marks) && Quiet(s)
    ensures ForcedSold(RunTickSpec(cfg, bcfg, s, t).orders, l, t.forced, |t.forced|)
  {
    hide AssessSpec, MarketIsOpen, LoopStep, FreshIds, Sorted, ItemsAlong;
    if t.watchlistEmpty && t.holdings.items == [] {
      NothingHeldNothingForced(t, l, marks);
    } else {
      var cs := Candidates(t);
      forall i | 0 <= i < |t.forced| ensures Find(cs, t.forced[i]).Some? {
        HeldIsCandidate(t, l, marks, t.forced[i]);
      }
      ForcedInOrder(t.forced, cs);
      JudgedAvoidsForced(t, cs);
      var assessed := s.(breaker := AssessSpec(bcfg, s.breaker, Equity(t), t.holdings.dailyPlRate, DayOf(t.now)));
      LoopSellsForced(cfg, t, BaseContext(t, s.killSwitch), LoopState(assessed, [], [], t.dailyUsed), s, l, marks, Decisions(t));
    }
  }

  // ---------------------------------------------------------------- full sales empty the positions

  lemma FullSaleEmpties(l: Ledger, req: OrderRequest, cost: CostConfig, now: Option<Instant>)
    requires AllHeld(l.positions) && req.symbol in l.positions
    requires req.side.Sell? && req.price.Some? && req.quantity == Some(l.positions[req.symbol].quantity)
    ensures req.symbol !in FillSpec(l, req, cost, now).0.positions
  {
    hide SellProceeds;
  }

  lemma {:induction false} FillsCloseForced(l: Ledger, cost: CostConfig, orders: seq<OrderResult>, now: Instant, forced: seq<Symbol>, n: nat)
    requires AllHeld(l.positions) && StrictlySorted(forced)
    requires forall i :: 0 <= i < |forced| ==> forced[i] in l.positions
    requires ForcedSold(orders, l, forced, n)
    ensures forall i :: 0 <= i < n ==> forced[i] !in FillOrders(l, cost, orders, now).positions
    ensures forall i :: n <= i < |forced| ==> Get(FillOrders(l, cost, orders, now).positions, forced[i]) == Get(l.positions, forced[i])
    decreases |orders|
  {
    hide FillSpec;
    if orders != [] {
      var k := |orders| - 1;
      var before, last := orders[..k], orders[k];
      var m := FillOrders(l, cost, before, now);
      if n == |orders| {
        FillsCloseForced(l, cost, before, now, forced, n - 1);
        assert Get(m.positions, forced[k]) == Get(l.positions, forced[k]);
        FullSaleEmpties(m, last.request, cost, Some(now));
      } else {
        FillsCloseForced(l, cost, before, now, forced, n);
        assert last.request.symbol !in forced;
      }
      forall i | 0 <= i < |forced| && forced[i] != last.request.symbol
        ensures Get(FillOrders(l, cost, orders, now).positions, forced[i]) == Get(m.positions, forced[i])
      {
        FillTouchesOneSymbol(m, last.request, cost, Some(now), forced[i]);
      }
    }
  }

  /**
   * Forced exits close positions end to end: in a paper tick with the kill switch off, the market open and
   * a positive last close, every forced position is sold in full and gone from the ledger afterwards,
   * whatever the judge, the regime, the breaker, the cost gate and the caps say.
   */
  lemma ForcedExitsClose(
    cfg: GuardrailConfig, bcfg: BreakerConfig, cost: CostConfig, s: Service, t: TickInput, l: Ledger, marks: map<Symbol, real>)
    requires TickReady(cfg, t, BaseContext(t, s.killSwitch), s, l, marks) && Quiet(s)
    ensures var after := FillOrders(l, cost, RunTickSpec(cfg, bcfg, s, t).orders, t.now);
      forall i :: 0 <= i < |t.forced| ==> t.forced[i] !in after.positions
  {
    hide RunTickSpec, ShowsLedger, Candidates, FreshIds, MarketIsOpen;
    TickSellsForced(cfg, bcfg, s, t, l, marks);
    FillsCloseForced(l, cost, RunTickSpec(cfg, bcfg, s, t).orders, t.now, t.forced, |t.forced|);
  }

  // ---------------------------------------------------------------- the money of a tick

  lemma StepPriced(cfg: GuardrailConfig, t: TickInput, base: GuardrailContext, st: LoopState, d: Decision, n: nat)
    requires AllPriced(st.orders)
    ensures AllPriced(LoopStep(cfg, t, base, st, d, n).orders)
  {
    hide Allocate, Candidates, Verdict;
    var found := Find(Candidates(t), d.symbol);
    if found.Some? {
      var proposal := Allocate(d, found.value, cfg, t.ids(n), t.multiplier);
      if proposal.Some? {
        AllocateShape(d, found.value, cfg, t.ids(n), t.multiplier);
        VerdictIsAbout(cfg, st.svc, proposal.value, GuardContext(base, found.value, st.used), t.replies(n));
      }
    }
  }

  lemma {:induction false} LoopPriced(cfg: GuardrailConfig, t: TickInput, base: GuardrailContext, start: LoopState, ds: seq<Decision>)
    requires AllPriced(start.orders)
    ensures AllPriced(Loop(cfg, t, base, start, ds).orders)
  {
    hide LoopStep, AllPriced;
    if ds != [] {
      var n := |ds| - 1;
      LoopPriced(cfg, t, base, start, ds[..n]);
      StepPriced(cfg, t, base, Loop(cfg, t, base, start, ds[..n]), ds[n], n);
    }
  }

  lemma TickPriced(cfg: GuardrailConfig, bcfg: BreakerConfig, s: Service, t: TickInput)
    ensures AllPriced(RunTickSpec(cfg, bcfg, s, t).orders)
  {
    hide AssessSpec, Loop, Decisions, BaseContext;
    if !(t.watchlistEmpty && t.holdings.items == []) {
      var assessed := s.(breaker := AssessSpec(bcfg, s.breaker, Equity(t), t.holdings.dailyPlRate, DayOf(t.now)));
      LoopPriced(cfg, t, BaseContext(t, s.killSwitch), LoopState(assessed, [], [], t.dailyUsed), Decisions(t));
    }
  }

  /** The day's cap bounds what a tick takes from the paper ledger: no more than the cap still leaves, with costs. */
  lemma {:induction false} LedgerPaysWithinCap(
    cfg: GuardrailConfig, bcfg: BreakerConfig, cost: CostConfig, s: Service, t: TickInput, l: Ledger)
    requires AllHeld(l.positions) && SaneRates(cost) && t.dailyUsed <= cfg.dailyBuyCap
    ensures l.cash - FillOrders(l, cost, RunTickSpec(cfg, bcfg, s, t).orders, t.now).cash
      <= (cfg.dailyBuyCap - t.dailyUsed) * cost.BuyFactor()
  {
    hide RunTickSpec, FillOrders, Spent, SaneRates, CostConfig.BuyFactor;
    var orders := RunTickSpec(cfg, bcfg, s, t).orders;
    TickPriced(cfg, bcfg, s, t);
    CashTakenBounded(l, cost, orders, t.now);
    TickStaysWithinCap(cfg, bcfg, s, t);
    BuyFactorNonnegative(cost);
    MulMono(Spent(orders), cfg.dailyBuyCap - t.dailyUsed, cost.BuyFactor());
  }

  // ---------------------------------------------------------------- the tick itself

  method FillAll(paper: PaperPortfolio, orders: seq<OrderResult>, cost: CostConfig, now: Instant)
    requires AllHeld(paper.positions)
    modifies paper
    ensures paper.State() == FillOrders(old(paper.State()), cost, orders, now)
  {
    hide FillSpec;
    ghost var l := paper.State();
    for i := 0 to |orders|
      invariant AllHeld(paper.positions)
      invariant paper.State() == FillOrders(l, cost, orders[..i], now)
    {
      assert orders[..i + 1][..i] == orders[..i];
      if orders[i].status.DryRun? {
        var fill := paper.ApplyFill(orders[i].request, cost, Some(now));
      }
    }
    assert orders[..|orders|] == orders;
  }

  /** What a paper tick shows the pipeline: the ledger as holdings, its cash, and the exits due on it. */
  ghost function PaperInput(
    inputs: TickInput, l: Ledger, marks: map<Symbol, real>, daysHeld: map<Symbol, int>, exits: ExitConfig): TickInput
  {
    inputs.(holdings := SyntheticHoldings(l, marks), cash := Some(l.cash), forced := Forced(l.positions, marks, daysHeld, exits))
  }

  /** The equity fed to the breaker in a paper tick is the marked equity of the ledger, and there is no daily rate. */
  lemma {:induction false} BreakerSeesMarkedEquity(
    cfg: GuardrailConfig, bcfg: BreakerConfig, s: Service, inputs: TickInput, l: Ledger, marks: map<Symbol, real>,
    daysHeld: map<Symbol, int>, exits: ExitConfig)
    ensures var after := RunTickSpec(cfg, bcfg, s, PaperInput(inputs, l, marks, daysHeld, exits)).svc;
      if inputs.watchlistEmpty && l.positions == map[] then after == s
      else
        after.breaker == AssessSpec(bcfg, s.breaker, Some(l.cash + MarkedValue(l, marks)), None, DayOf(inputs.now))
        && after.killSwitch == s.killSwitch && after.mode == s.mode
        && (s.mode.DryRunMode? ==> after.placed == s.placed)
  {
    hide RunTickSpec, AssessSpec, Sorted, Forced, MarkedValue, BookValue;
    var t := PaperInput(inputs, l, marks, daysHeld, exits);
    TickAssessesOnce(cfg, bcfg, s, t);
    assert |t.holdings.items| == |l.positions.Keys|;
    assert l.positions.Keys == {} <==> l.positions == map[];
  }

  /** What the exits need to go through: orders are accepted, ids are new, and every due position has a positive last close. */
  ghost predicate ExitsGoThrough(
    cfg: GuardrailConfig, s: Service, inputs: TickInput, l: Ledger, marks: map<Symbol, real>, daysHeld: map<Symbol, int>, exits: ExitConfig)
  {
    Quiet(s) && MarketIsOpen(inputs.now, cfg) && FreshIds(inputs, s)
    && forall f :: Due(l.positions, marks, daysHeld, exits, f) ==> f in inputs.closes && inputs.closes[f] > 0.0
  }

  lemma {:induction false} DueAreClosed(
    cfg: GuardrailConfig, bcfg: BreakerConfig, cost: CostConfig, s: Service, inputs: TickInput, l: Ledger, marks: map<Symbol, real>,
    daysHeld: map<Symbol, int>, exits: ExitConfig)
    requires AllHeld(l.positions) && ExitsGoThrough(cfg, s, inputs, l, marks, daysHeld, exits)
    requires OncePerSymbol(Candidates(PaperInput(inputs, l, marks, daysHeld, exits)))
    ensures var after := FillOrders(l, cost, RunTickSpec(cfg, bcfg, s, PaperInput(inputs, l, marks, daysHeld, exits)).orders, inputs.now);
      forall f :: Due(l.positions, marks, daysHeld, exits, f) ==> f !in after.positions
  {
    hide RunTickSpec, FillOrders, Due, MarketIsOpen, Sorted, Forced, ItemsAlong, Candidates, OncePerSymbol, AllHeld;
    var t := PaperInput(inputs, l, marks, daysHeld, exits);
    DueAreSellable(t, l, marks, daysHeld, exits);
    ForcedExitsClose(cfg, bcfg, cost, s, t, l, marks);
    var after := FillOrders(l, cost, RunTickSpec(cfg, bcfg, s, t).orders, inputs.now);
    forall f | Due(l.positions, marks, daysHeld, exits, f) ensures f !in after.positions {
      assert f in t.forced;
    }
  }

  lemma FilledAsAccepted(l: Ledger, cost: CostConfig, orders: seq<OrderResult>, now: Instant)
    requires AllHeld(l.positions)
    ensures (forall i :: 0 <= i < |orders| ==> orders[i].status != DryRun) ==> FillOrders(l, cost, orders, now) == l
    ensures forall s :: !AcceptedFor(orders, s) ==> Get(FillOrders(l, cost, orders, now).positions, s) == Get(l.positions, s)
  {
    if forall i :: 0 <= i < |orders| ==> orders[i].status != DryRun {
      NothingAcceptedNothingFilled(l, cost, orders, now);
    }
    forall s | !AcceptedFor(orders, s) ensures Get(FillOrders(l, cost, orders, now).positions, s) == Get(l.positions, s) {
      UnacceptedKeepsPosition(l, cost, orders, now, s);
    }
  }

  /**
   * The paper part of a tick: the pipeline runs on the ledger, and the intended orders are filled.  `inputs` carries
   * everything but the holdings, the cash and the forced exits, which come from the ledger.
   */
  method RunPaperTick(
    svc: OrderService, paper: PaperPortfolio, inputs: TickInput, marks: map<Symbol, real>, daysHeld: map<Symbol, int>,
    exits: ExitConfig, cost: CostConfig)
    returns (orders: seq<OrderResult>)
    requires AllHeld(paper.positions)
    requires forall i, j :: 0 <= i < j < |inputs.buys| ==> inputs.buys[i].symbol != inputs.buys[j].symbol
    requires forall i :: 0 <= i < |inputs.buys| ==> inputs.buys[i].symbol !in paper.positions
    modifies svc, svc.circuitBreaker, paper
    ensures var spec := RunTickSpec(svc.config, svc.circuitBreaker.config, old(svc.State()),
                                    PaperInput(inputs, old(paper.State()), marks, daysHeld, exits));
      orders == spec.orders && svc.State() == spec.svc
    ensures AllHeld(paper.positions)
    ensures paper.State() == FillOrders(old(paper.State()), cost, orders, inputs.now)
    ensures (forall i :: 0 <= i < |orders| ==> orders[i].status != DryRun) ==> paper.State() == old(paper.State())
    ensures forall s :: !AcceptedFor(orders, s) ==> Get(paper.positions, s) == Get(old(paper.positions), s)
    ensures SaneRates(cost) && inputs.dailyUsed <= svc.config.dailyBuyCap ==>
      old(paper.cash) - paper.cash <= (svc.config.dailyBuyCap - inputs.dailyUsed) * cost.BuyFactor()
    ensures inputs.watchlistEmpty && old(paper.positions) == map[] ==> svc.State() == old(svc.State())
    ensures !(inputs.watchlistEmpty && old(paper.positions) == map[]) ==>
      svc.State().breaker == AssessSpec(svc.circuitBreaker.config, old(svc.State()).breaker,
        Some(old(paper.cash) + MarkedValue(old(paper.State()), marks)), None, DayOf(inputs.now))
    ensures ExitsGoThrough(svc.config, old(svc.State()), inputs, old(paper.State()), marks, daysHeld, exits) ==>
      forall s :: Due(old(paper.positions), marks, daysHeld, exits, s) ==> s !in paper.positions
  {
    hide RunTickSpec, FillOrders, Due, Sorted, Forced, ItemsAlong, Candidates, OncePerSymbol, AllHeld, AssessSpec, MarkedValue,
      BookValue, ExitsGoThrough, AcceptedFor, SaneRates, CostConfig.BuyFactor;
    var h := paper.ToSyntheticHoldings(marks);
    var forced := EvaluateExits(paper.positions, marks, daysHeld, exits);
    var t := inputs.(holdings := h, cash := Some(paper.cash), forced := forced);
    ghost var l, s := paper.State(), svc.State();
    assert t == PaperInput(inputs, l, marks, daysHeld, exits);
    SyntheticOncePerSymbol(t, l, marks);
    var gated, used;
    orders, gated, used := RunTick(svc, t);
    FillAll(paper, orders, cost, t.now);
    BreakerSeesMarkedEquity(svc.config, svc.circuitBreaker.config, s, inputs, l, marks, daysHeld, exits);
    FilledAsAccepted(l, cost, orders, inputs.now);
    if SaneRates(cost) && inputs.dailyUsed <= svc.config.dailyBuyCap {
      LedgerPaysWithinCap(svc.config, svc.circuitBreaker.config, cost, s, t, l);
    }
    if ExitsGoThrough(svc.config, s, inputs, l, marks, daysHeld, exits) {
      DueAreClosed(svc.config, svc.circuitBreaker.config, cost, s, inputs, l, marks, daysHeld, exits);
    }
  }

  lemma SyntheticOncePerSymbol(t: TickInput, l: Ledger, marks: map<Symbol, real>)
    requires ShowsLedger(t, l, marks)
    requires forall i, j :: 0 <= i < j < |t.buys| ==> t.buys[i].symbol != t.buys[j].symbol
    requires forall i :: 0 <= i < |t.buys| ==> t.buys[i].symbol !in l.positions
    ensures OncePerSymbol(Candidates(t))
  {
    hide Sorted, ItemsAlong;
    var keys, cs := Sorted(l.positions.Keys), Candidates(t);
    forall i | 0 <= i < |cs| ensures cs[i].symbol == if i < |t.buys| then t.buys[i].symbol else keys[i - |t.buys|] {
      if i >= |t.buys| {
        assert t.holdings.items[i - |t.buys|] == ItemOf(l, marks, keys[i - |t.buys|]);
      }
    }
    forall i | 0 <= i < |keys| ensures keys[i] in l.positions {
      assert keys[i] in keys;
    }
  }

  lemma DueAreSellable(t: TickInput, l: Ledger, marks: map<Symbol, real>, daysHeld: map<Symbol, int>, exits: ExitConfig)
    requires ForcedExactly(t.forced, l.positions, marks, daysHeld, exits)
    requires forall s :: Due(l.positions, marks, daysHeld, exits, s) ==> s in t.closes && t.closes[s] > 0.0
    ensures Sellable(t, l)
  {
    forall i | 0 <= i < |t.forced| ensures Due(l.positions, marks, daysHeld, exits, t.forced[i]) {
      assert t.forced[i] in t.forced;
    }
  }
}
