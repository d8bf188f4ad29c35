/** One trading tick from the breaker assessment to the submitted orders. */
module Pipeline {
  import opened Prelude
  import opened Orders
  import opened Breaker
  import opened OrderLayer
  import opened Paper
  import opened Allocator

  /** A buy candidate that passed the screener. */
  datatype Screened = Screened(symbol: Symbol, lastClose: real)

  /**
   * What a tick is given.  `closes` holds the last close of every held symbol that was screened; the judge,
   * the entry gate and the exposure multiplier are arbitrary; ids and replies are indexed by decision.
   */
  datatype TickInput = TickInput(
    watchlistEmpty: bool, holdings: Holdings, cash: Option<real>, buys: seq<Screened>, closes: map<Symbol, real>,
    forced: seq<Symbol>, now: Instant, dailyUsed: real, multiplier: real,
    judge: CandidateContext -> Decision, gate: Decision -> bool, ids: nat -> OrderId, replies: nat -> Reply)

  /** A judge's answer made safe: its own symbol, confidence in [0,1], no sell of what is not held. */
  function Normalize(d: Decision, ctx: CandidateContext): Decision {
    Decision(if d.action.SellIt? && !ctx.alreadyHeld then Hold else d.action, ctx.symbol, Min(Max(d.confidence, 0.0), 1.0))
  }

  function BuyCandidate(b: Screened, t: TickInput): CandidateContext {
    CandidateContext(b.symbol, Some(b.lastClose), false, None, Some(t.holdings.marketValue), t.cash)
  }

  function HeldCandidate(item: Item, t: TickInput): CandidateContext {
    CandidateContext(item.symbol, if item.symbol in t.closes then Some(t.closes[item.symbol]) else None,
                     true, Some(item.quantity), Some(t.holdings.marketValue), t.cash)
  }

  /** Buy candidates first, then everything held. */
  function Candidates(t: TickInput): (cs: seq<CandidateContext>)
    ensures |cs| == |t.buys| + |t.holdings.items|
  {
    seq(|t.buys|, i requires 0 <= i < |t.buys| => BuyCandidate(t.buys[i], t))
    + seq(|t.holdings.items|, i requires 0 <= i < |t.holdings.items| => HeldCandidate(t.holdings.items[i], t))
  }

  /** Each symbol is considered once: duplicates are merged before screening, and held symbols are never buy candidates. */
  ghost predicate OncePerSymbol(cs: seq<CandidateContext>) {
    forall i, j :: 0 <= i < j < |cs| ==> cs[i].symbol != cs[j].symbol
  }

  function Find(cs: seq<CandidateContext>, s: Symbol): Option<CandidateContext> {
    if cs == [] then None
    else if cs[0].symbol == s then Some(cs[0])
    else Find(cs[1..], s)
  }

  /** Forced exits come first and are never put to the judge. */
  function ForcedDecisions(forced: seq<Symbol>, cs: seq<CandidateContext>): seq<Decision> {
    if forced == [] then []
    else
      (if Find(cs, forced[0]).Some? then [Decision(SellIt, forced[0], 1.0)] else []) + ForcedDecisions(forced[1..], cs)
  }

  function JudgedDecisions(t: TickInput, cs: seq<CandidateContext>): seq<Decision> {
    if cs == [] then []
    else
      (if cs[0].symbol in t.forced then [] else [Normalize(t.judge(cs[0]), cs[0])]) + JudgedDecisions(t, cs[1..])
  }

  function Decisions(t: TickInput): seq<Decision> {
    ForcedDecisions(t.forced, Candidates(t)) + JudgedDecisions(t, Candidates(t))
  }

  function HeldSymbols(h: Holdings): set<Symbol> {
    set item | item in h.items :: item.symbol
  }

  /** The guardrail context of the tick; the weight denominator is total assets, as in the sizing. */
  function BaseContext(t: TickInput, killSwitch: bool): GuardrailContext {
    GuardrailContext(t.now, killSwitch, |t.holdings.items|, HeldSymbols(t.holdings), 0.0,
                     Some(t.holdings.marketValue + t.cash.GetOr(0.0)), 0.0, false)
  }

  /** What the loop has done so far: the service, the orders, the buys dropped by the gate, today's buy total. */
  datatype LoopState = LoopState(svc: Service, orders: seq<OrderResult>, gated: seq<Symbol>, used: real)

  function GuardContext(base: GuardrailContext, ctx: CandidateContext, used: real): GuardrailContext {
    base.(dailyBuyUsed := used, symbolCurrentValue := ctx.heldQuantity.GetOr(0.0) * ctx.lastClose.GetOr(0.0))
  }

  predicate CountsTowardCap(o: OrderResult) {
    o.request.side.Buy? && (o.status.DryRun? || o.status.Submitted?)
  }

  /** The money an accepted buy stands for, planned or sent: its amount when given, else quantity times price. */
  function Spends(o: OrderResult): real {
    if o.request.side != Buy || (o.status != DryRun && o.status != Submitted) then 0.0
    else
      match o.request.orderAmount
      case Some(amount) => amount
      case None => o.request.quantity.GetOr(0.0) * o.request.price.GetOr(0.0)
  }

  /** The notional of the buys that were accepted. */
  function Spent(orders: seq<OrderResult>): real {
    if orders == [] then 0.0
    else Spent(orders[..|orders| - 1]) + Spends(orders[|orders| - 1])
  }

  /** One submitted order: the service answers and an accepted buy is added to today's total. */
  function SubmitStep(cfg: GuardrailConfig, st: LoopState, req: OrderRequest, gctx: GuardrailContext, reply: Reply): LoopState {
    var (svc, res) := SubmitSpec(cfg, st.svc, req, gctx, reply);
    LoopState(svc, st.orders + [res], st.gated, st.used + (if CountsTowardCap(res) then req.EstimatedNotional().GetOr(0.0) else 0.0))
  }

  /** One decision: the entry gate, the sizing, the guarded submit. */
  function LoopStep(cfg: GuardrailConfig, t: TickInput, base: GuardrailContext, st: LoopState, d: Decision, n: nat): LoopState {
    match Find(Candidates(t), d.symbol)
    case None => st
    case Some(ctx) =>
      if d.action.BuyIt? && !t.gate(d) then st.(gated := st.gated + [d.symbol])
      else
        match Allocate(d, ctx, cfg, t.ids(n), t.multiplier)
        case None => st
        case Some(req) => SubmitStep(cfg, st, req, GuardContext(base, ctx, st.used), t.replies(n))
  }

  function Loop(cfg: GuardrailConfig, t: TickInput, base: GuardrailContext, start: LoopState, ds: seq<Decision>): LoopState {
    if ds == [] then start
    else
      var n := |ds| - 1;
      LoopStep(cfg, t, base, Loop(cfg, t, base, start, ds[..n]), ds[n], n)
  }

  function Equity(t: TickInput): Option<real> {
    if t.cash.Some? then Some(t.cash.value + t.holdings.marketValue) else None
  }

  /** Nothing to look at ends the tick before the breaker is assessed. */
  function RunTickSpec(cfg: GuardrailConfig, bcfg: BreakerConfig, s: Service, t: TickInput): LoopState {
    if t.watchlistEmpty && t.holdings.items == [] then LoopState(s, [], [], t.dailyUsed)
    else
      var assessed := s.(breaker := AssessSpec(bcfg, s.breaker, Equity(t), t.holdings.dailyPlRate, DayOf(t.now)));
      Loop(cfg, t, BaseContext(t, s.killSwitch), LoopState(assessed, [], [], t.dailyUsed), Decisions(t))
  }

  method RunTick(svc: OrderService, t: TickInput) returns (orders: seq<OrderResult>, gated: seq<Symbol>, used: real)
    requires OncePerSymbol(Candidates(t))
    modifies svc, svc.circuitBreaker
    ensures LoopState(svc.State(), orders, gated, used)
      == RunTickSpec(svc.config, svc.circuitBreaker.config, old(svc.State()), t)
  {
    hide LoopStep, AssessSpec, Decisions;
    orders, gated, used := [], [], t.dailyUsed;
    if t.watchlistEmpty && t.holdings.items == [] {
      return;
    }
    var base := BaseContext(t, svc.killSwitch);
    var tripped := svc.AssessCircuitBreaker(Equity(t), t.holdings.dailyPlRate, DayOf(t.now));
    ghost var start := LoopState(svc.State(), [], [], t.dailyUsed);
    var ds := Decisions(t);
    for n := 0 to |ds|
      invariant LoopState(svc.State(), orders, gated, used) == Loop(svc.config, t, base, start, ds[..n])
    {
      assert ds[..n + 1][..n] == ds[..n];
      orders, gated, used := PlaceOne(svc, t, base, orders, gated, used, ds[n], n);
    }
    assert ds[..|ds|] == ds;
  }

  /** The body of the order loop, for one decision. */
  method PlaceOne(
    svc: OrderService, t: TickInput, base: GuardrailContext, orders0: seq<OrderResult>, gated0: seq<Symbol>, used0: real,
    d: Decision, n: nat)
    returns (orders: seq<OrderResult>, gated: seq<Symbol>, used: real)
    modifies svc
    ensures LoopState(svc.State(), orders, gated, used)
      == LoopStep(svc.config, t, base, LoopState(old(svc.State()), orders0, gated0, used0), d, n)
  {
    hide SubmitSpec, Allocate, Candidates;
    orders, gated, used := orders0, gated0, used0;
    var found := Find(Candidates(t), d.symbol);
    if found.None? {
      return;
    }
    var ctx := found.value;
    if d.action.BuyIt? && !t.gate(d) {
      gated := gated + [d.symbol];
      return;
    }
    var proposal := Allocate(d, ctx, svc.config, t.ids(n), t.multiplier);
    if proposal.None? {
      return;
    }
    var req := proposal.value;
    var res := svc.Submit(req, GuardContext(base, ctx, used), t.replies(n));
    orders := orders + [res];
    if CountsTowardCap(res) {
      used := used + req.EstimatedNotional().GetOr(0.0);
    }
  }
}
