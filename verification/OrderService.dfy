/** The order layer: idempotency, guardrails, the mode gate and the executor, with an audit ledger. */
module OrderLayer {
  import opened Prelude
  import opened Orders
  import opened Breaker

  /** Everything the order service remembers; `placed` is the history of calls to the executor. */
  datatype Service = Service(
    mode: TradingMode, killSwitch: bool, breaker: BreakerState, seen: map<OrderId, OrderResult>,
    ledger: seq<OrderResult>, hasExecutor: bool, placed: seq<OrderRequest>)

  /** What the outside world answers during one submit: the broker's id (None when placing raised) and the clock. */
  datatype Reply = Reply(tossOrderId: Option<nat>, at: Instant)

  /** The caller's context with the service's own kill switch and breaker folded in. */
  function EffectiveContext(ctx: GuardrailContext, killSwitch: bool, tripped: bool): GuardrailContext {
    ctx.(killSwitch := ctx.killSwitch || killSwitch, circuitBreakerHalt := ctx.circuitBreakerHalt || tripped)
  }

  /** The status of an order that is not a repeat, and whether the executor was called for it. */
  function Verdict(cfg: GuardrailConfig, s: Service, order: OrderRequest, ctx: GuardrailContext, reply: Reply): (OrderResult, bool) {
    var result := (status: OrderStatus, codes: seq<Code>, id: Option<nat>) =>
      OrderResult(order.clientOrderId, status, s.mode, order, codes, id, reply.at);
    var codes := RunGuardrails(order, EffectiveContext(ctx, s.killSwitch, s.breaker.Tripped()), cfg);
    if codes != [] then (result(Rejected, codes, None), false)
    else if s.mode.DryRunMode? then (result(DryRun, [], None), false)
    else if !s.hasExecutor then (result(Failed, [], None), false)
    else if reply.tossOrderId.Some? then (result(Submitted, [], reply.tossOrderId), true)
    else (result(Failed, [], None), true)
  }

  /** Entering a result in the index and the ledger, and its request in the executor log when it was sent. */
  function Record(s: Service, res: OrderResult, called: bool): Service {
    s.(seen := s.seen[res.clientOrderId := res], ledger := s.ledger + [res],
       placed := if called then s.placed + [res.request] else s.placed)
  }

  function SubmitSpec(cfg: GuardrailConfig, s: Service, order: OrderRequest, ctx: GuardrailContext, reply: Reply): (Service, OrderResult) {
    if order.clientOrderId in s.seen then
      (s, s.seen[order.clientOrderId].(status := Duplicate))
    else
      var (res, called) := Verdict(cfg, s, order, ctx, reply);
      (Record(s, res, called), res)
  }

  class OrderService {
    const config: GuardrailConfig
    const circuitBreaker: CircuitBreaker
    const hasExecutor: bool
    var mode: TradingMode
    var killSwitch: bool
    var seen: map<OrderId, OrderResult>
    var ledger: seq<OrderResult>
    var placed: seq<OrderRequest>

    ghost function State(): Service
      reads this, circuitBreaker
    {
      Service(mode, killSwitch, circuitBreaker.State(), seen, ledger, hasExecutor, placed)
    }

    constructor (mode: TradingMode, config: GuardrailConfig, circuitBreaker: CircuitBreaker, hasExecutor: bool)
      ensures this.config == config && this.circuitBreaker == circuitBreaker
      ensures State() == Service(mode, false, circuitBreaker.State(), map[], [], hasExecutor, [])
    {
      this.mode, this.config, this.circuitBreaker, this.hasExecutor := mode, config, circuitBreaker, hasExecutor;
      killSwitch, seen, ledger, placed := false, map[], [], [];
    }

    method EngageKillSwitch()
      modifies this
      ensures State() == old(State()).(killSwitch := true)
    {
      killSwitch := true;
    }

    method ReleaseKillSwitch()
      modifies this
      ensures State() == old(State()).(killSwitch := false)
    {
      killSwitch := false;
    }

    method AssessCircuitBreaker(equity: Option<real>, dailyPlRate: Option<real>, day: int) returns (tripped: bool)
      modifies circuitBreaker
      ensures State() == old(State()).(
        breaker := AssessSpec(circuitBreaker.config, old(circuitBreaker.State()), equity, dailyPlRate, day))
      ensures tripped <==> State().breaker.drawdownHalt || State().breaker.dailyHaltDate == Some(day)
    {
      tripped := circuitBreaker.Assess(equity, dailyPlRate, day);
    }

    method Submit(order: OrderRequest, ctx: GuardrailContext, reply: Reply) returns (res: OrderResult)
      modifies this
      ensures (State(), res) == SubmitSpec(config, old(State()), order, ctx, reply)
    {
      if order.clientOrderId in seen {
        return seen[order.clientOrderId].(status := Duplicate);
      }
      var tripped := circuitBreaker.Tripped();
      var codes := RunGuardrails(order, EffectiveContext(ctx, killSwitch, tripped), config);
      if codes != [] {
        res := OrderResult(order.clientOrderId, Rejected, mode, order, codes, None, reply.at);
      } else if mode.DryRunMode? {
        res := OrderResult(order.clientOrderId, DryRun, mode, order, [], None, reply.at);
      } else if !hasExecutor {
        res := OrderResult(order.clientOrderId, Failed, mode, order, [], None, reply.at);
      } else {
        placed := placed + [order];
        if reply.tossOrderId.Some? {
          res := OrderResult(order.clientOrderId, Submitted, mode, order, [], reply.tossOrderId, reply.at);
        } else {
          res := OrderResult(order.clientOrderId, Failed, mode, order, [], None, reply.at);
        }
      }
      Finalize(res);
    }

    method Finalize(res: OrderResult)
      modifies this`seen, this`ledger
      ensures seen == old(seen)[res.clientOrderId := res] && ledger == old(ledger) + [res]
    {
      seen := seen[res.clientOrderId := res];
      ledger := ledger + [res];
    }
  }

  // ---------------------------------------------------------------- whole runs of one service

  datatype Op =
    | Submit(order: OrderRequest, ctx: GuardrailContext, reply: Reply)
    | SetMode(mode: TradingMode)
    | SetKillSwitch(on: bool)
    | SetBreaker(breaker: BreakerState)

  function StepOp(cfg: GuardrailConfig, s: Service, op: Op): Service {
    match op
    case Submit(order, ctx, reply) => SubmitSpec(cfg, s, order, ctx, reply).0
    case SetMode(mode) => s.(mode := mode)
    case SetKillSwitch(on) => s.(killSwitch := on)
    case SetBreaker(breaker) => s.(breaker := breaker)
  }

  function RunOps(cfg: GuardrailConfig, s: Service, ops: seq<Op>): Service {
    if ops == [] then s
    else StepOp(cfg, RunOps(cfg, s, ops[..|ops| - 1]), ops[|ops| - 1])
  }

  /** The requests of the results that only exist because the executor was called, in ledger order. */
  function SentRequests(ledger: seq<OrderResult>): seq<OrderRequest> {
    if ledger == [] then []
    else
      var last := ledger[|ledger| - 1];
      SentRequests(ledger[..|ledger| - 1])
      + (if last.status.Submitted? || last.status.Failed? then [last.request] else [])
  }

  ghost predicate DistinctIds(ledger: seq<OrderResult>) {
    forall i, j :: 0 <= i < j < |ledger| ==> ledger[i].clientOrderId != ledger[j].clientOrderId
  }

  ghost predicate DistinctRequests(sent: seq<OrderRequest>) {
    forall k, l :: 0 <= k < l < |sent| ==> sent[k].clientOrderId != sent[l].clientOrderId
  }

  /** The idempotency map indexes the ledger: each ledger result is found under its own id, and nothing else is. */
  ghost predicate Indexes(seen: map<OrderId, OrderResult>, ledger: seq<OrderResult>) {
    DistinctIds(ledger)
    && (forall i :: 0 <= i < |ledger| ==>
          ledger[i].clientOrderId in seen && seen[ledger[i].clientOrderId] == ledger[i]
          && ledger[i].request.clientOrderId == ledger[i].clientOrderId)
    && (forall id :: id in seen ==> seen[id] in ledger && seen[id].clientOrderId == id)
  }

  ghost predicate Consistent(s: Service) {
    Indexes(s.seen, s.ledger) && s.placed == (if s.hasExecutor then SentRequests(s.ledger) else [])
  }

  lemma FinalizeKeepsIndex(seen: map<OrderId, OrderResult>, ledger: seq<OrderResult>, res: OrderResult)
    requires Indexes(seen, ledger)
    requires res.clientOrderId !in seen && res.request.clientOrderId == res.clientOrderId
    ensures Indexes(seen[res.clientOrderId := res], ledger + [res])
  {
    var grown := ledger + [res];
    assert grown[|ledger|] == res;
    forall id | id in seen ensures seen[id] in grown {
      var i :| 0 <= i < |ledger| && ledger[i] == seen[id];
      assert grown[i] == seen[id];
    }
  }

  lemma RecordKeepsConsistent(s: Service, res: OrderResult, called: bool)
    requires Consistent(s) && res.clientOrderId !in s.seen && res.request.clientOrderId == res.clientOrderId
    requires s.hasExecutor ==> (called <==> res.status.Submitted? || res.status.Failed?)
    requires called ==> s.hasExecutor
    ensures Consistent(Record(s, res, called))
  {
    FinalizeKeepsIndex(s.seen, s.ledger, res);
    assert (s.ledger + [res])[..|s.ledger|] == s.ledger;
  }

  lemma VerdictFacts(cfg: GuardrailConfig, s: Service, order: OrderRequest, ctx: GuardrailContext, reply: Reply)
    ensures var (res, called) := Verdict(cfg, s, order, ctx, reply);
      res.clientOrderId == order.clientOrderId && res.request == order && (called ==> s.hasExecutor)
      && (s.hasExecutor ==> (called <==> res.status.Submitted? || res.status.Failed?))
  {
    hide RunGuardrails;
  }

  lemma {:induction false} SubmitKeepsConsistent(cfg: GuardrailConfig, s: Service, order: OrderRequest, ctx: GuardrailContext, reply: Reply)
    requires Consistent(s)
    ensures Consistent(SubmitSpec(cfg, s, order, ctx, reply).0)
  {
    hide Verdict, Record, Consistent;
    if order.clientOrderId !in s.seen {
      var (res, called) := Verdict(cfg, s, order, ctx, reply);
      VerdictFacts(cfg, s, order, ctx, reply);
      RecordKeepsConsistent(s, res, called);
    }
  }

  lemma {:induction false} RunsAreConsistent(cfg: GuardrailConfig, s: Service, ops: seq<Op>)
    requires Consistent(s)
    ensures Consistent(RunOps(cfg, s, ops)) && RunOps(cfg, s, ops).hasExecutor == s.hasExecutor
  {
    hide Verdict, Indexes, SentRequests;
    if ops != [] {
      RunsAreConsistent(cfg, s, ops[..|ops| - 1]);
      var before, op := RunOps(cfg, s, ops[..|ops| - 1]), ops[|ops| - 1];
      if op.Submit? {
        SubmitKeepsConsistent(cfg, before, op.order, op.ctx, op.reply);
      }
    }
  }

  ghost predicate AllFromLedger(sent: seq<OrderRequest>, ledger: seq<OrderResult>) {
    forall k :: 0 <= k < |sent| ==> exists i :: 0 <= i < |ledger| && ledger[i].request == sent[k]
  }

  lemma {:induction false} SentFromLedger(ledger: seq<OrderResult>)
    requires DistinctIds(ledger)
    requires forall i :: 0 <= i < |ledger| ==> ledger[i].request.clientOrderId == ledger[i].clientOrderId
    ensures AllFromLedger(SentRequests(ledger), ledger) && DistinctRequests(SentRequests(ledger))
  {
    if ledger != [] {
      var before, n := ledger[..|ledger| - 1], |ledger| - 1;
      SentFromLedger(before);
      var was, sent := SentRequests(before), SentRequests(ledger);
      forall k | 0 <= k < |sent| ensures exists i :: 0 <= i < |ledger| && ledger[i].request == sent[k] {
        if k < |was| {
          var i :| 0 <= i < |before| && before[i].request == was[k];
          assert ledger[i].request == sent[k];
        } else {
          assert ledger[n].request == sent[k];
        }
      }
      forall k, l | 0 <= k < l < |sent| ensures sent[k].clientOrderId != sent[l].clientOrderId {
        var i :| 0 <= i < |before| && before[i].request == was[k];
        assert ledger[i].clientOrderId == sent[k].clientOrderId;
        if l < |was| {
          assert sent[l] == was[l];
        } else {
          assert sent[l] == ledger[n].request;
        }
      }
    }
  }

  ghost predicate NewService(s: Service) {
    s.seen == map[] && s.ledger == [] && s.placed == []
  }

  /**
   * At most once: over any sequence of submits, mode changes and switches, no client order id reaches
   * the executor twice, no id is in the ledger twice, and the ledger alone reconstructs, in order,
   * every request the executor was given.
   */
  lemma {:induction false} AtMostOnce(cfg: GuardrailConfig, s: Service, ops: seq<Op>)
    requires NewService(s)
    ensures var t := RunOps(cfg, s, ops);
      DistinctRequests(t.placed)
      && DistinctIds(t.ledger)
      && t.placed == (if s.hasExecutor then SentRequests(t.ledger) else [])
  {
    RunsAreConsistent(cfg, s, ops);
    SentFromLedger(RunOps(cfg, s, ops).ledger);
  }

  /** Everything recorded before is still there: the ledger and the executor log only grew, stored results are the same. */
  ghost predicate Extends(s: Service, t: Service) {
    s.ledger <= t.ledger && s.placed <= t.placed
    && forall id :: id in s.seen ==> id in t.seen && t.seen[id] == s.seen[id]
  }

  lemma StepExtends(cfg: GuardrailConfig, s: Service, op: Op)
    ensures Extends(s, StepOp(cfg, s, op))
  {
    hide RunGuardrails;
    if op.Submit? && op.order.clientOrderId !in s.seen {
      var (res, called) := Verdict(cfg, s, op.order, op.ctx, op.reply);
      assert res.clientOrderId == op.order.clientOrderId;
    }
  }

  /** A stored result never changes, and the ledger and the executor log only grow, whatever follows. */
  lemma {:induction false} StoredResultsPersist(cfg: GuardrailConfig, s: Service, ops: seq<Op>)
    ensures Extends(s, RunOps(cfg, s, ops))
  {
    hide StepOp;
    if ops != [] {
      var before := RunOps(cfg, s, ops[..|ops| - 1]);
      StoredResultsPersist(cfg, s, ops[..|ops| - 1]);
      StepExtends(cfg, before, ops[|ops| - 1]);
    }
  }

  ghost predicate AlwaysDryRun(s: Service, ops: seq<Op>) {
    s.mode.DryRunMode? && forall i :: 0 <= i < |ops| && ops[i].SetMode? ==> ops[i].mode.DryRunMode?
  }

  /** No run that stays in the dry-run mode ever calls the executor. */
  lemma {:induction false} DryRunNeverSends(cfg: GuardrailConfig, s: Service, ops: seq<Op>)
    requires AlwaysDryRun(s, ops)
    ensures RunOps(cfg, s, ops).placed == s.placed && RunOps(cfg, s, ops).mode.DryRunMode?
  {
    if ops != [] {
      var before := ops[..|ops| - 1];
      assert AlwaysDryRun(s, before) by {
        assert forall i :: 0 <= i < |before| ==> before[i] == ops[i];
      }
      DryRunNeverSends(cfg, s, before);
    }
  }

  /** Liquidation stays open in every state: a new sell is rejected exactly for the kill switch or a closed market. */
  lemma SellRejectedOnlyFor(cfg: GuardrailConfig, s: Service, order: OrderRequest, ctx: GuardrailContext, reply: Reply)
    requires order.side.Sell? && order.clientOrderId !in s.seen
    ensures var res := SubmitSpec(cfg, s, order, ctx, reply).1;
      (res.status.Rejected? <==> ctx.killSwitch || s.killSwitch || !MarketIsOpen(ctx.now, cfg))
      && (forall c :: c in res.violations ==> c.KillSwitch? || c.MarketClosed?)
  {
    SellStoppedOnlyBy(order, EffectiveContext(ctx, s.killSwitch, s.breaker.Tripped()), cfg);
  }

  /** A new buy is accepted only within the per-order limit, within the day's cap, and with kill switch and breaker off. */
  lemma AcceptedBuyWithinLimits(cfg: GuardrailConfig, s: Service, order: OrderRequest, ctx: GuardrailContext, reply: Reply)
    requires order.side.Buy?
    requires SubmitSpec(cfg, s, order, ctx, reply).1.status in {DryRun, Submitted} && order.clientOrderId !in s.seen
    ensures order.EstimatedNotional().Some? && Costs(order, order.EstimatedNotional().value)
      && order.EstimatedNotional().value <= cfg.perOrderMax
      && ctx.dailyBuyUsed + order.EstimatedNotional().value <= cfg.dailyBuyCap
      && !s.killSwitch && !ctx.killSwitch && !ctx.circuitBreakerHalt
      && !s.breaker.drawdownHalt && (s.breaker.dailyHaltDate.None? || s.breaker.dailyHaltDate != s.breaker.today)
  {
    PassingBuyIsBounded(order, EffectiveContext(ctx, s.killSwitch, s.breaker.Tripped()), cfg);
  }

  // ---------------------------------------------------------------- the breaker and the orders

  /** Whatever else is wrong with a new buy, it is rejected for the breaker exactly when the breaker's history stops buys. */
  lemma {:induction false} BuyStoppedExactlyWhen(
    cfg: GuardrailConfig, bcfg: BreakerConfig, s: Service, events: seq<Event>, order: OrderRequest, ctx: GuardrailContext, reply: Reply)
    requires s.breaker == Run(bcfg, events) && DatesAscend(events)
    requires order.side.Buy? && order.clientOrderId !in s.seen && !ctx.circuitBreakerHalt
    ensures var res := SubmitSpec(cfg, s, order, ctx, reply).1;
      (res.status == Rejected && CircuitBreaker in res.violations) <==> StopsBuys(bcfg, events)
  {
    hide StopsBuys, DatesAscend, RunGuardrails;
    TrippedExactlyWhen(bcfg, events);
    CodeReported(order, EffectiveContext(ctx, s.killSwitch, s.breaker.Tripped()), cfg, CircuitBreaker);
  }

  /**
   * The daily stop end to end: after a loss at or beyond the limit was assessed, no new buy is accepted on that date,
   * whatever is assessed later on it.
   */
  lemma {:induction false} NoBuyAfterLossDay(
    cfg: GuardrailConfig, bcfg: BreakerConfig, s: Service, events: seq<Event>, equity: Option<real>, rate: real, day: int,
    later: seq<Event>, order: OrderRequest, ctx: GuardrailContext, reply: Reply)
    requires rate <= -bcfg.dailyLossLimit && SameDate(later, day)
    requires s.breaker == Run(bcfg, events + [Assess(equity, Some(rate), day)] + later)
    requires order.side.Buy? && order.clientOrderId !in s.seen
    ensures var (after, res) := SubmitSpec(cfg, s, order, ctx, reply);
      res.status == Rejected && CircuitBreaker in res.violations && after.placed == s.placed
  {
    hide RunGuardrails;
    LossDayLasts(bcfg, events, equity, rate, day, later);
    CodeReported(order, EffectiveContext(ctx, s.killSwitch, s.breaker.Tripped()), cfg, CircuitBreaker);
  }

  /** Everything about the answer to a new order, but for the codes of a rejection. */
  lemma {:induction false} NewOrderAnswered(cfg: GuardrailConfig, s: Service, order: OrderRequest, ctx: GuardrailContext, reply: Reply)
    requires order.clientOrderId !in s.seen
    ensures var (after, res) := SubmitSpec(cfg, s, order, ctx, reply); var passed := res.violations == [];
      res.clientOrderId == order.clientOrderId && res.request == order && res.mode == s.mode && res.createdAt == reply.at
      && (res.status == Rejected <==> !passed)
      && (passed && s.mode == DryRunMode ==> res.status == DryRun)
      && (passed && s.mode == LiveMode ==>
            res.status == if s.hasExecutor && reply.tossOrderId.Some? then Submitted else Failed)
      && res.tossOrderId == (if res.status == Submitted then reply.tossOrderId else None)
      && after.placed == s.placed + (if passed && s.mode == LiveMode && s.hasExecutor then [order] else [])
      && after.ledger == s.ledger + [res] && order.clientOrderId in after.seen && after.seen[order.clientOrderId] == res
      && after.killSwitch == s.killSwitch && after.breaker == s.breaker && after.mode == s.mode
  {
    hide RunGuardrails;
  }

  /** A repeat is echoed with the stored result and changes nothing. */
  lemma RepeatEchoed(cfg: GuardrailConfig, s: Service, order: OrderRequest, ctx: GuardrailContext, reply: Reply)
    requires order.clientOrderId in s.seen
    ensures var (after, res) := SubmitSpec(cfg, s, order, ctx, reply);
      after == s && res.status == Duplicate && res.(status := s.seen[order.clientOrderId].status) == s.seen[order.clientOrderId]
  {
  }
}
