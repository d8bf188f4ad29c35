/**
 * What becomes of every accepted order: it is recorded, still in memory, or lost with its tick.  And the order
 * loop of one tick is a run of submit steps of the protocol.
 */
module TickHistory {
  import opened Prelude
  import opened Orders
  import Breaker
  import opened OrderLayer
  import opened Allocator
  import opened Pipeline
  import opened PipelineLaws
  import opened Repository
  import opened TickProtocol

  // ---------------------------------------------------------------- a tick refines the protocol

  /** The submit step one decision leads to, if any. */
  function DecisionSteps(id: TaskId, cfg: GuardrailConfig, t: TickInput, base: GuardrailContext, st: LoopState, d: Decision, n: nat): seq<Step> {
    match Find(Candidates(t), d.symbol)
    case None => []
    case Some(ctx) =>
      if d.action.BuyIt? && !t.gate(d) then []
      else
        match Allocate(d, ctx, cfg, t.ids(n), t.multiplier)
        case None => []
        case Some(req) => [Step.Submit(id, st.svc, req, GuardContext(base, ctx, st.used), t.replies(n))]
  }

  function LoopSteps(id: TaskId, cfg: GuardrailConfig, t: TickInput, base: GuardrailContext, start: LoopState, ds: seq<Decision>): seq<Step> {
    if ds == [] then []
    else
      var n := |ds| - 1;
      LoopSteps(id, cfg, t, base, start, ds[..n]) + DecisionSteps(id, cfg, t, base, Loop(cfg, t, base, start, ds[..n]), ds[n], n)
  }

  /** The task is in its body and holds exactly this state of the loop. */
  ghost predicate InLoop(s: Sys, id: TaskId, date: int, st: LoopState) {
    id in s.tasks && s.tasks[id].phase == Running(date, st.orders, st.used)
  }

  lemma RunAppend(cfgs: InstanceId -> GuardrailConfig, s: Sys, steps: seq<Step>, e: Step)
    ensures Run(cfgs, s, steps + [e]) == Next(cfgs, Run(cfgs, s, steps), e)
  {
    assert (steps + [e])[..|steps|] == steps;
  }

  lemma StepInLoop(
    cfgs: InstanceId -> GuardrailConfig, s: Sys, steps: seq<Step>, id: TaskId, date: int, t: TickInput,
    base: GuardrailContext, st: LoopState, d: Decision, n: nat)
    requires InLoop(Run(cfgs, s, steps), id, date, st)
    ensures var v := Run(cfgs, s, steps); var cfg := cfgs(v.tasks[id].inst);
      var w := Run(cfgs, s, steps + DecisionSteps(id, cfg, t, base, st, d, n));
      InLoop(w, id, date, LoopStep(cfg, t, base, st, d, n)) && w.tasks[id].inst == v.tasks[id].inst
  {
    hide Allocate, Candidates, SubmitSpec;
    var v := Run(cfgs, s, steps);
    var more := DecisionSteps(id, cfgs(v.tasks[id].inst), t, base, st, d, n);
    if more == [] {
      assert steps + more == steps;
    } else {
      RunAppend(cfgs, s, steps, more[0]);
    }
  }

  lemma {:induction false} LoopIsARun(
    cfgs: InstanceId -> GuardrailConfig, s: Sys, id: TaskId, date: int, t: TickInput,
    base: GuardrailContext, start: LoopState, ds: seq<Decision>)
    requires InLoop(s, id, date, start)
    ensures var cfg := cfgs(s.tasks[id].inst); var w := Run(cfgs, s, LoopSteps(id, cfg, t, base, start, ds));
      InLoop(w, id, date, Loop(cfg, t, base, start, ds)) && w.tasks[id].inst == s.tasks[id].inst
  {
    hide LoopStep, DecisionSteps, Next;
    if ds != [] {
      var n := |ds| - 1;
      var cfg := cfgs(s.tasks[id].inst);
      LoopIsARun(cfgs, s, id, date, t, base, start, ds[..n]);
      StepInLoop(cfgs, s, LoopSteps(id, cfg, t, base, start, ds[..n]), id, date, t, base, Loop(cfg, t, base, start, ds[..n]), ds[n], n);
    }
  }

  /**
   * Refinement: for any judge, holdings and service, the body of a tick started with the total its task read is
   * a run of submit steps of the protocol, all of positive notional, which leaves the task with exactly the
   * tick's orders and total.
   */
  lemma {:induction false} TickIsARun(
    cfgs: InstanceId -> GuardrailConfig, bcfg: Breaker.BreakerConfig, s: Sys, id: TaskId, date: int, svc: Service, t: TickInput)
    requires id in s.tasks && s.tasks[id].phase == Running(date, [], t.dailyUsed)
    ensures exists steps: seq<Step> ::
      SubmitsOf(id, steps)
      && InLoop(Run(cfgs, s, steps), id, date, RunTickSpec(cfgs(s.tasks[id].inst), bcfg, svc, t))
  {
    hide LoopStep, DecisionSteps, Next, Breaker.AssessSpec, Candidates, Decisions, Loop;
    var cfg := cfgs(s.tasks[id].inst);
    if t.watchlistEmpty && t.holdings.items == [] {
      assert InLoop(Run(cfgs, s, []), id, date, RunTickSpec(cfg, bcfg, svc, t));
    } else {
      var assessed := svc.(breaker := Breaker.AssessSpec(bcfg, svc.breaker, Equity(t), t.holdings.dailyPlRate, DayOf(t.now)));
      var base, start := BaseContext(t, svc.killSwitch), LoopState(assessed, [], [], t.dailyUsed);
      var steps := LoopSteps(id, cfg, t, base, start, Decisions(t));
      OnlySubmits(id, cfg, t, base, start, Decisions(t));
      LoopIsARun(cfgs, s, id, date, t, base, start, Decisions(t));
      assert InLoop(Run(cfgs, s, steps), id, date, RunTickSpec(cfg, bcfg, svc, t));
    }
  }

  /** Only submits of this task, each with an order of positive notional. */
  ghost predicate SubmitsOf(id: TaskId, steps: seq<Step>) {
    forall i :: 0 <= i < |steps| ==>
      steps[i].Submit? && steps[i].t == id && steps[i].req.EstimatedNotional().GetOr(0.0) > 0.0
  }

  lemma {:induction false} OnlySubmits(id: TaskId, cfg: GuardrailConfig, t: TickInput, base: GuardrailContext, start: LoopState, ds: seq<Decision>)
    ensures SubmitsOf(id, LoopSteps(id, cfg, t, base, start, ds))
  {
    hide LoopStep, DecisionSteps;
    if ds != [] {
      var n := |ds| - 1;
      OnlySubmits(id, cfg, t, base, start, ds[..n]);
      DecisionSubmits(id, cfg, t, base, Loop(cfg, t, base, start, ds[..n]), ds[n], n);
    }
  }

  lemma DecisionSubmits(id: TaskId, cfg: GuardrailConfig, t: TickInput, base: GuardrailContext, st: LoopState, d: Decision, n: nat)
    ensures SubmitsOf(id, DecisionSteps(id, cfg, t, base, st, d, n))
  {
    hide Allocate, Candidates, OrderRequest.EstimatedNotional;
    var found := Find(Candidates(t), d.symbol);
    if found.Some? && Allocate(d, found.value, cfg, t.ids(n), t.multiplier).Some? {
      AllocateShape(d, found.value, cfg, t.ids(n), t.multiplier);
      PositiveNotional(Allocate(d, found.value, cfg, t.ids(n), t.multiplier).value);
    }
  }

  lemma PositiveNotional(req: OrderRequest)
    requires req.orderAmount.None? && req.price.Some? && req.price.value > 0.0 && req.quantity.Some? && req.quantity.value > 0.0
    ensures req.EstimatedNotional().GetOr(0.0) > 0.0
  {
  }

  // ---------------------------------------------------------------- where accepted orders go

  /** Every submitted order has an id that was never used before, also not by the service that answers it. */
  predicate NewId(s: Sys, e: Step) {
    Submits(s, e) ==> e.req.clientOrderId !in s.issued && e.req.clientOrderId !in e.svc.seen
  }

  ghost predicate NewIdsRun(cfgs: InstanceId -> GuardrailConfig, s: Sys, steps: seq<Step>) {
    forall i :: 0 <= i < |steps| ==>
      NewId(Run(cfgs, s, steps[..i]), steps[i]) && Sensible(Run(cfgs, s, steps[..i]), steps[i])
  }

  /** What the task in its body still holds in memory. */
  function InFlight(s: Sys): seq<OrderResult> {
    if s.advisory.Some? && s.advisory.value in s.tasks then InHand(s.tasks[s.advisory.value]) else []
  }

  ghost predicate Issued(rows: seq<OrderResult>, ids: set<OrderId>) {
    forall i :: 0 <= i < |rows| ==> rows[i].clientOrderId in ids
  }

  ghost predicate Conserved(s: Sys) {
    forall d :: SpentOn(s.answered, d)
      == SpentOn(s.table, d) + SpentOn(InFlight(s), d) + SpentOn(s.lost, d)
  }

  ghost predicate Traced(s: Sys) {
    LocksHeld(s) && Issued(s.table, s.issued) && Issued(InFlight(s), s.issued)
    && AllNew(s.table, InFlight(s)) && DistinctIds(s.table) && Conserved(s)
  }

  /** Recording never puts an id on record twice, whatever the ids of the results are. */
  lemma {:induction false} RecordingKeepsDistinct(rows: seq<OrderResult>, results: seq<OrderResult>)
    requires DistinctIds(rows)
    ensures DistinctIds(AddOrders(rows, results))
  {
    if results != [] {
      RecordingKeepsDistinct(rows, results[..|results| - 1]);
    }
  }

  lemma DistinctTogether(rows: seq<OrderResult>, results: seq<OrderResult>)
    requires DistinctIds(rows) && AllNew(rows, results)
    ensures DistinctIds(rows + results)
  {
    var all := rows + results;
    forall i, j | 0 <= i < j < |all| ensures all[i].clientOrderId != all[j].clientOrderId {
      if i < |rows| <= j {
        assert !HasId(rows, results[j - |rows|].clientOrderId);
      }
    }
  }

  lemma {:induction false} SpentOnConcat(a: seq<OrderResult>, b: seq<OrderResult>, date: int)
    ensures SpentOn(a + b, date) == SpentOn(a, date) + SpentOn(b, date)
  {
    hide SpentOn, SpendsOn;
    if b == [] {
      assert a + b == a;
      NoOrders(date);
    } else {
      var n := |b| - 1;
      assert b == b[..n] + [b[n]];
      SpentOnConcat(a, b[..n], date);
      assert a + b == (a + b[..n]) + [b[n]];
      SpentOnAppend(a + b[..n], b[n], date);
      SpentOnAppend(b[..n], b[n], date);
    }
  }

  lemma {:induction false} RecordedIssued(rows: seq<OrderResult>, results: seq<OrderResult>, ids: set<OrderId>)
    requires Issued(rows, ids) && Issued(results, ids)
    ensures Issued(AddOrders(rows, results), ids)
  {
    hide HasId;
    if results != [] {
      RecordedIssued(rows, results[..|results| - 1], ids);
    }
  }

  lemma NewAppend(rows: seq<OrderResult>, results: seq<OrderResult>, res: OrderResult, ids: set<OrderId>)
    requires AllNew(rows, results) && Issued(rows, ids) && Issued(results, ids) && res.clientOrderId !in ids
    ensures AllNew(rows, results + [res]) && Issued(results + [res], ids + {res.clientOrderId})
    ensures Issued(rows, ids + {res.clientOrderId})
  {
  }

  /** Ending a task moves what it held to the lost orders, and changes no other account. */
  lemma RemoveTraced(s: Sys, t: TaskId)
    requires Traced(s) && t in s.tasks && LocksHeld(Remove(s, t))
    ensures Traced(Remove(s, t))
  {
    hide SpentOn;
    var v := Remove(s, t);
    forall d ensures SpentOn(v.answered, d) == SpentOn(v.table, d) + SpentOn(InFlight(v), d) + SpentOn(v.lost, d) {
      SpentOnConcat(s.lost, InHand(s.tasks[t]), d);
      NoOrders(d);
    }
  }

  lemma SubmitTraced(cfgs: InstanceId -> GuardrailConfig, s: Sys, e: Step)
    requires Traced(s) && NewId(s, e) && Sensible(s, e) && Submits(s, e) && e.gctx.dailyBuyUsed == s.tasks[e.t].phase.used
    requires LocksHeld(Next(cfgs, s, e))
    ensures Traced(Next(cfgs, s, e))
  {
    hide SpentOn, SubmitStep, AllNew, Issued, Spends, OrderRequest.EstimatedNotional;
    var v, p := Next(cfgs, s, e), s.tasks[e.t].phase;
    SubmitResult(cfgs(s.tasks[e.t].inst), e.svc, p.orders, p.used, e.req, e.gctx, e.reply);
    var res := InFlight(v)[|p.orders|];
    assert InFlight(v) == InFlight(s) + [res];
    assert v.answered == s.answered + [res];
    NewAppend(s.table, p.orders, res, s.issued);
    forall d ensures SpentOn(v.answered, d) == SpentOn(v.table, d) + SpentOn(InFlight(v), d) + SpentOn(v.lost, d) {
      SpentOnAppend(s.answered, res, d);
      SpentOnAppend(p.orders, res, d);
    }
  }

  lemma RecordTraced(cfgs: InstanceId -> GuardrailConfig, s: Sys, t: TaskId)
    requires Traced(s) && t in s.tasks && s.tasks[t].phase.Running? && LocksHeld(Next(cfgs, s, Step.Record(t)))
    ensures Traced(Next(cfgs, s, Step.Record(t)))
  {
    hide SpentOn, AddOrders, HasId;
    var v := Next(cfgs, s, Step.Record(t));
    RecordedIssued(s.table, InFlight(s), s.issued);
    RecordingKeepsDistinct(s.table, InFlight(s));
    forall d ensures SpentOn(v.answered, d) == SpentOn(v.table, d) + SpentOn(InFlight(v), d) + SpentOn(v.lost, d) {
      RecordingAddsExactly(s.table, InFlight(s), d);
      NoOrders(d);
    }
  }

  lemma StepTraced(cfgs: InstanceId -> GuardrailConfig, s: Sys, e: Step)
    requires Traced(s) && NewId(s, e) && Sensible(s, e)
    ensures Traced(Next(cfgs, s, e))
  {
    hide SpentOn, SubmitStep, AddOrders, HasId, OrderRequest.EstimatedNotional;
    LocksKept(cfgs, s, e);
    var v := Next(cfgs, s, e);
    match e {
      case Submit(t, svc, req, gctx, reply) =>
        if Submits(s, e) && gctx.dailyBuyUsed == s.tasks[t].phase.used {
          SubmitTraced(cfgs, s, e);
        }
      case Record(t) =>
        if At(s, t) && s.tasks[t].phase.Running? {
          RecordTraced(cfgs, s, t);
        }
      case TryAdvisory(t) =>
        if At(s, t) && s.tasks[t].phase.Waiting? && s.advisory.Some? {
          RemoveTraced(s, t);
        }
      case Leave(t) =>
        if At(s, t) {
          RemoveTraced(s, t);
        }
      case Crash(inst) =>
        if inst in s.local {
          RemoveTraced(s, s.local[inst]);
        }
      case Begin(t, inst) =>
        assert InFlight(v) == InFlight(s);
      case Read(t, now) =>
        assert InFlight(v) == InFlight(s);
    }
  }

  lemma {:induction false} RunTraced(cfgs: InstanceId -> GuardrailConfig, start: Instant, steps: seq<Step>)
    requires NewIdsRun(cfgs, Idle(start), steps)
    ensures var s := Run(cfgs, Idle(start), steps);
      Traced(s) && DistinctIds(s.table + InFlight(s))
  {
    hide Next, NewId, Sensible, DistinctIds, Traced, Idle;
    if steps == [] {
      IdleTraced(start);
    } else {
      var n := |steps| - 1;
      forall i | 0 <= i < n ensures NewId(Run(cfgs, Idle(start), steps[..n][..i]), steps[..n][i])
        && Sensible(Run(cfgs, Idle(start), steps[..n][..i]), steps[..n][i])
      {
        assert steps[..n][..i] == steps[..i];
      }
      RunTraced(cfgs, start, steps[..n]);
      StepTraced(cfgs, Run(cfgs, Idle(start), steps[..n]), steps[n]);
    }
    TracedIsDistinct(Run(cfgs, Idle(start), steps));
  }

  lemma IdleTraced(start: Instant)
    ensures Traced(Idle(start))
  {
    hide SpentOn;
    forall d ensures SpentOn([], d) == 0.0 {
      NoOrders(d);
    }
  }

  lemma TracedIsDistinct(s: Sys)
    requires Traced(s)
    ensures DistinctIds(s.table + InFlight(s))
  {
    hide DistinctIds, AllNew, LocksHeld, Issued, SpentOn, InFlight;
    DistinctTogether(s.table, InFlight(s));
  }

  /**
   * Conservation over every run with new ids: on every date, the buys ever accepted are exactly those on record,
   * those a live tick still holds, and those that died with their tick; so with clocks that never run backwards
   * the accepted buys of a date exceed the cap by no more than what was lost.
   */
  lemma {:induction false} AcceptedIsRecordedInFlightOrLost(
    cfgs: InstanceId -> GuardrailConfig, start: Instant, steps: seq<Step>, cap: real, date: int)
    requires NewIdsRun(cfgs, Idle(start), steps)
    ensures var s := Run(cfgs, Idle(start), steps);
      SpentOn(s.answered, date) == SpentOn(s.table, date) + SpentOn(InFlight(s), date) + SpentOn(s.lost, date)
    ensures CapsWithin(cfgs, cap) && ClockedRun(cfgs, Idle(start), steps) ==>
      var s := Run(cfgs, Idle(start), steps);
      SpentOn(s.answered, date) <= cap + SpentOn(s.lost, date)
  {
    hide Run, SpentOn, ClockedRun, NewIdsRun, CapsWithin, Idle;
    var s := Run(cfgs, Idle(start), steps);
    RunTraced(cfgs, start, steps);
    if CapsWithin(cfgs, cap) && ClockedRun(cfgs, Idle(start), steps) {
      CapSafetyAcrossMidnight(cfgs, start, steps, cap, date);
      NoOrders(date);
    }
  }

  ghost predicate HoldsBuys(orders: seq<OrderResult>) {
    exists i :: 0 <= i < |orders| && CountsTowardCap(orders[i])
  }

  /** The step ends a tick, normally or by a crash, that holds accepted buys it has not recorded. */
  ghost predicate Drops(s: Sys, e: Step) {
    match e
    case Leave(t) => t in s.tasks && HoldsBuys(InHand(s.tasks[t]))
    case Crash(inst) => inst in s.local && s.local[inst] in s.tasks && HoldsBuys(InHand(s.tasks[s.local[inst]]))
    case _ => false
  }

  ghost predicate NothingDropped(cfgs: InstanceId -> GuardrailConfig, s: Sys, steps: seq<Step>) {
    forall i :: 0 <= i < |steps| ==> !Drops(Run(cfgs, s, steps[..i]), steps[i])
  }

  lemma {:induction false} NoBuysNoTotal(orders: seq<OrderResult>, date: int)
    requires !HoldsBuys(orders)
    ensures SpentOn(orders, date) == 0.0
  {
    if orders != [] {
      NoBuysNoTotal(orders[..|orders| - 1], date);
    }
  }

  lemma StepLosesNothing(cfgs: InstanceId -> GuardrailConfig, s: Sys, e: Step, date: int)
    requires !Drops(s, e)
    ensures SpentOn(Next(cfgs, s, e).lost, date) == SpentOn(s.lost, date)
  {
    hide SpentOn, SubmitStep, AddOrders, HoldsBuys;
    var v := Next(cfgs, s, e);
    match e {
      case TryAdvisory(t) =>
        if v.lost != s.lost {
          SpentOnConcat(s.lost, InHand(s.tasks[t]), date);
          NoOrders(date);
        }
      case Leave(t) =>
        if At(s, t) {
          SpentOnConcat(s.lost, InHand(s.tasks[t]), date);
          NoBuysNoTotal(InHand(s.tasks[t]), date);
        }
      case Crash(inst) =>
        if inst in s.local && s.local[inst] in s.tasks {
          SpentOnConcat(s.lost, InHand(s.tasks[s.local[inst]]), date);
          NoBuysNoTotal(InHand(s.tasks[s.local[inst]]), date);
        }
      case _ =>
    }
  }

  lemma {:induction false} NothingLost(cfgs: InstanceId -> GuardrailConfig, s: Sys, steps: seq<Step>, date: int)
    requires NothingDropped(cfgs, s, steps)
    ensures SpentOn(Run(cfgs, s, steps).lost, date) == SpentOn(s.lost, date)
  {
    hide Next, Drops, SpentOn;
    if steps != [] {
      var n := |steps| - 1;
      forall i | 0 <= i < n ensures !Drops(Run(cfgs, s, steps[..n][..i]), steps[..n][i]) {
        assert steps[..n][..i] == steps[..i];
      }
      NothingLost(cfgs, s, steps[..n], date);
      StepLosesNothing(cfgs, Run(cfgs, s, steps[..n]), steps[n], date);
    }
  }

  /**
   * While no tick ends with accepted buys it has not recorded, the buys ever accepted on a date - not only the
   * recorded ones - stay within the cap.
   */
  lemma {:induction false} AcceptedWithinCapUnlessDropped(
    cfgs: InstanceId -> GuardrailConfig, start: Instant, steps: seq<Step>, cap: real, date: int)
    requires CapsWithin(cfgs, cap) && ClockedRun(cfgs, Idle(start), steps)
    requires NewIdsRun(cfgs, Idle(start), steps) && NothingDropped(cfgs, Idle(start), steps)
    ensures SpentOn(Run(cfgs, Idle(start), steps).answered, date) <= cap
  {
    hide Run, SpentOn, ClockedRun, NewIdsRun, NothingDropped, CapsWithin;
    AcceptedIsRecordedInFlightOrLost(cfgs, start, steps, cap, date);
    NothingLost(cfgs, Idle(start), steps, date);
    NoOrders(date);
  }

  // ---------------------------------------------------------------- the loss is real

  const SAMPLE_CONFIG := GuardrailConfig(100.0, 100.0, 5, 1.0, 0, MICROS_PER_DAY, false, {})
  const SAMPLE_CONTEXT := GuardrailContext(0, false, 0, {}, 0.0, None, 0.0, false)
  const SAMPLE_SERVICE := Service(LiveMode, false, Breaker.FRESH, map[], [], true, [])

  function SampleOrder(id: OrderId): OrderRequest {
    OrderRequest(id, 1, Buy, Limit, Some(4.0), Some(25.0), None)
  }

  function SampleResult(id: OrderId): OrderResult {
    OrderResult(id, Submitted, LiveMode, SampleOrder(id), [], Some(id), 0)
  }

  /** One tick of instance 0 that sends an order of the whole cap. */
  function TickBody(t: TaskId): seq<Step> {
    [Begin(t, 0), TryAdvisory(t), Read(t, 0),
     Step.Submit(t, SAMPLE_SERVICE, SampleOrder(t), SAMPLE_CONTEXT, Reply(Some(t), 0))]
  }

  lemma SampleAccepted(id: OrderId)
    ensures SubmitStep(SAMPLE_CONFIG, LoopState(SAMPLE_SERVICE, [], [], 0.0), SampleOrder(id), SAMPLE_CONTEXT, Reply(Some(id), 0)).orders
      == [SampleResult(id)]
    ensures SubmitStep(SAMPLE_CONFIG, LoopState(SAMPLE_SERVICE, [], [], 0.0), SampleOrder(id), SAMPLE_CONTEXT, Reply(Some(id), 0)).used == 100.0
  {
    var order := SampleOrder(id);
    assert order.EstimatedNotional() == Some(100.0);
    assert !SAMPLE_SERVICE.breaker.Tripped();
    assert RunGuardrails(order, EffectiveContext(SAMPLE_CONTEXT, false, false), SAMPLE_CONFIG) == [];
  }

  ghost predicate Fine(s: Sys, e: Step) {
    NewId(s, e) && Clocked(s, e)
  }

  ghost predicate FineAt(cfgs: InstanceId -> GuardrailConfig, s: Sys, steps: seq<Step>, i: nat)
    requires i < |steps|
  {
    Fine(Run(cfgs, s, steps[..i]), steps[i])
  }

  ghost predicate FineRun(cfgs: InstanceId -> GuardrailConfig, s: Sys, steps: seq<Step>) {
    forall i :: 0 <= i < |steps| ==> FineAt(cfgs, s, steps, i)
  }

  /** A quiet system runs the whole tick body, and holds one order of the whole cap afterwards. */
  lemma TickBodyRuns(s: Sys, t: TaskId)
    requires s.tasks == map[] && s.local == map[] && s.advisory == None && s.table == [] && s.clock == 0 && t !in s.issued
    ensures var cfgs: InstanceId -> GuardrailConfig := _ => SAMPLE_CONFIG;
      Run(cfgs, s, TickBody(t)) == s.(
        tasks := map[t := Task(0, Running(0, [SampleResult(t)], 100.0))], local := map[0 := t], advisory := Some(t),
        answered := s.answered + [SampleResult(t)], issued := s.issued + {t})
      && |TickBody(t)| == 4 && FineRun(cfgs, s, TickBody(t))
  {
    hide Next, Fine, Run;
    var cfgs: InstanceId -> GuardrailConfig := _ => SAMPLE_CONFIG;
    var b := TickBody(t);
    NothingYet(cfgs, s, b);
    var one := s.(tasks := map[t := Task(0, Waiting)], local := map[0 := t]);
    var two := s.(tasks := map[t := Task(0, Entered)], local := map[0 := t], advisory := Some(t));
    var three := two.(tasks := map[t := Task(0, Running(0, [], 0.0))]);
    var four := three.(
      tasks := map[t := Task(0, Running(0, [SampleResult(t)], 100.0))],
      answered := s.answered + [SampleResult(t)], issued := s.issued + {t});
    FirstSteps(cfgs, s, t);
    LastStep(cfgs, three, t);
    assert b[..0] == [] && b[..4] == b;
    Then(cfgs, s, b, 0, s, one);
    Then(cfgs, s, b, 1, one, two);
    Then(cfgs, s, b, 2, two, three);
    Then(cfgs, s, b, 3, three, four);
  }

  /** One more step of a script whose first `k` steps are known to lead to `mid`. */
  lemma Then(cfgs: InstanceId -> GuardrailConfig, s: Sys, script: seq<Step>, k: nat, mid: Sys, next: Sys)
    requires k < |script| && Run(cfgs, s, script[..k]) == mid && Next(cfgs, mid, script[k]) == next
    requires Fine(mid, script[k])
    ensures Run(cfgs, s, script[..k + 1]) == next && Fine(Run(cfgs, s, script[..k]), script[k])
  {
    assert script[..k + 1][..k] == script[..k];
  }

  lemma NothingYet(cfgs: InstanceId -> GuardrailConfig, s: Sys, script: seq<Step>)
    ensures Run(cfgs, s, script[..0]) == s
  {
  }

  lemma FirstSteps(cfgs: InstanceId -> GuardrailConfig, s: Sys, t: TaskId)
    requires s.tasks == map[] && s.local == map[] && s.advisory == None && s.table == [] && s.clock == 0
    ensures var one := s.(tasks := map[t := Task(0, Waiting)], local := map[0 := t]);
      var two := one.(tasks := map[t := Task(0, Entered)], advisory := Some(t));
      var b := TickBody(t);
      Next(cfgs, s, b[0]) == one && Next(cfgs, one, b[1]) == two
      && Next(cfgs, two, b[2]) == two.(tasks := map[t := Task(0, Running(0, [], 0.0))])
      && Fine(s, b[0]) && Fine(one, b[1]) && Fine(two, b[2])
  {
    NoOrders(0);
  }

  lemma LastStep(cfgs: InstanceId -> GuardrailConfig, s: Sys, t: TaskId)
    requires s.tasks == map[t := Task(0, Running(0, [], 0.0))] && s.clock == 0 && cfgs(0) == SAMPLE_CONFIG && t !in s.issued
    ensures Fine(s, TickBody(t)[3])
    ensures Next(cfgs, s, TickBody(t)[3]) == s.(
      tasks := map[t := Task(0, Running(0, [SampleResult(t)], 100.0))],
      answered := s.answered + [SampleResult(t)], issued := s.issued + {t})
  {
    hide SubmitStep;
    SampleAccepted(t);
    assert SampleOrder(t).EstimatedNotional() == Some(100.0);
  }

  lemma {:induction false} RunConcat(cfgs: InstanceId -> GuardrailConfig, s: Sys, a: seq<Step>, b: seq<Step>)
    ensures Run(cfgs, s, a + b) == Run(cfgs, Run(cfgs, s, a), b)
  {
    if b == [] {
      assert a + b == a;
    } else {
      var n := |b| - 1;
      assert a + b == (a + b[..n]) + [b[n]];
      RunAppend(cfgs, s, a + b[..n], b[n]);
      RunConcat(cfgs, s, a, b[..n]);
    }
  }

  lemma FineConcat(cfgs: InstanceId -> GuardrailConfig, s: Sys, a: seq<Step>, b: seq<Step>)
    requires FineRun(cfgs, s, a) && FineRun(cfgs, Run(cfgs, s, a), b)
    ensures FineRun(cfgs, s, a + b)
  {
    hide FineAt, Run;
    forall i | 0 <= i < |a + b| ensures FineAt(cfgs, s, a + b, i) {
      if i < |a| {
        FineEarlier(cfgs, s, a, b, i);
      } else {
        FineLater(cfgs, s, a, b, i - |a|);
      }
    }
  }

  lemma FineEarlier(cfgs: InstanceId -> GuardrailConfig, s: Sys, a: seq<Step>, b: seq<Step>, k: nat)
    requires k < |a| && FineAt(cfgs, s, a, k)
    ensures FineAt(cfgs, s, a + b, k)
  {
    hide Fine, Run;
    assert (a + b)[..k] == a[..k];
  }

  lemma FineLater(cfgs: InstanceId -> GuardrailConfig, s: Sys, a: seq<Step>, b: seq<Step>, k: nat)
    requires k < |b| && FineAt(cfgs, Run(cfgs, s, a), b, k)
    ensures FineAt(cfgs, s, a + b, |a| + k)
  {
    hide Fine, Run;
    assert (a + b)[..|a| + k] == a + b[..k];
    RunConcat(cfgs, s, a, b[..k]);
  }

  /** Two ticks of one instance, the first of which dies after its order was sent and before it was recorded. */
  function CrashedDay(): seq<Step> {
    TickBody(1) + [Crash(0)] + TickBody(2)
  }

  /**
   * The failing input: the broker has accepted twice the cap on one date, although the clock never ran
   * backwards, every id was new, one instance ran, and the table never held more than the cap.
   */
  lemma CrashCanDoubleTheDay()
    ensures var cfgs: InstanceId -> GuardrailConfig := _ => SAMPLE_CONFIG; var s := Run(cfgs, Idle(0), CrashedDay());
      CapsWithin(cfgs, 100.0) && FineRun(cfgs, Idle(0), CrashedDay())
      && SpentOn(s.answered, 0) == 200.0 && SpentOn(s.lost, 0) == 100.0
      && (forall i :: 0 <= i < |s.answered| ==> s.answered[i].status.Submitted?)
  {
    hide Run, Fine, TickBody, SampleResult;
    var cfgs: InstanceId -> GuardrailConfig := _ => SAMPLE_CONFIG;
    var first, dead := Run(cfgs, Idle(0), TickBody(1)), Run(cfgs, Idle(0), TickBody(1) + [Crash(0)]);
    TickBodyRuns(Idle(0), 1);
    RunAppend(cfgs, Idle(0), TickBody(1), Crash(0));
    TickBodyRuns(dead, 2);
    RunConcat(cfgs, Idle(0), TickBody(1) + [Crash(0)], TickBody(2));
    CrashIsFine(cfgs, first);
    FineConcat(cfgs, Idle(0), TickBody(1), [Crash(0)]);
    FineConcat(cfgs, Idle(0), TickBody(1) + [Crash(0)], TickBody(2));
    SampleWorth(1);
    SampleWorth(2);
    assert Run(cfgs, Idle(0), CrashedDay()).answered == [SampleResult(1)] + [SampleResult(2)];
    assert dead.lost == [SampleResult(1)];
    SpentOnConcat([SampleResult(1)], [SampleResult(2)], 0);
  }

  lemma CrashIsFine(cfgs: InstanceId -> GuardrailConfig, s: Sys)
    ensures FineRun(cfgs, s, [Crash(0)])
  {
  }

  lemma SampleWorth(id: OrderId)
    ensures SpentOn([SampleResult(id)], 0) == 100.0 && SampleResult(id).status.Submitted?
  {
    SpentOnAppend([], SampleResult(id), 0);
    assert SampleOrder(id).EstimatedNotional() == Some(100.0);
    NoOrders(0);
  }
}
