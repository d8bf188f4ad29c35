/**
 * Ticks on many instances over one shared database: a lock inside each process, one advisory lock
 * across processes, one order table, and crashes anywhere.
 */
module TickProtocol {
  import opened Prelude
  import opened Orders
  import opened OrderLayer
  import opened Pipeline
  import opened PipelineLaws
  import opened Repository

  type InstanceId = nat
  type TaskId = nat

  datatype Phase =
    | Waiting                                                    // holds its process lock, not yet the advisory lock
    | Entered                                                    // holds both locks
    | Running(date: int, orders: seq<OrderResult>, used: real)   // has read the day's total, is submitting
    | Recorded                                                   // has written its orders, still holds both locks

  datatype Task = Task(inst: InstanceId, phase: Phase)

  /**
   * The last four fields are history: every result ever returned by a submit, the results a task still held
   * in memory when it ended, the ids ever submitted, and the last time read from a clock.
   */
  datatype Sys = Sys(
    tasks: map<TaskId, Task>, local: map<InstanceId, TaskId>, advisory: Option<TaskId>, table: seq<OrderResult>,
    answered: seq<OrderResult>, lost: seq<OrderResult>, issued: set<OrderId>, clock: Instant)

  function Idle(clock: Instant): Sys {
    Sys(map[], map[], None, [], [], [], {}, clock)
  }

  datatype Step =
    | Begin(t: TaskId, inst: InstanceId)       // a tick request; skipped when the process lock is held
    | TryAdvisory(t: TaskId)                   // non-blocking; a task that does not get the lock gives up
    | Read(t: TaskId, now: Instant)            // read the buy total of today's date
    | Submit(t: TaskId, svc: Service, req: OrderRequest, gctx: GuardrailContext, reply: Reply)
    | Record(t: TaskId)                        // one transaction
    | Leave(t: TaskId)                         // the tick ends, normally or by an exception: both locks are released
    | Crash(inst: InstanceId)                  // the process dies; the database frees its advisory lock

  predicate At(s: Sys, t: TaskId) {
    t in s.tasks
  }

  /** The results a task would lose if it died now. */
  function InHand(task: Task): seq<OrderResult> {
    if task.phase.Running? then task.phase.orders else []
  }

  function Remove(s: Sys, t: TaskId): Sys
    requires t in s.tasks
  {
    s.(tasks := s.tasks - {t}, local := s.local - {s.tasks[t].inst},
       advisory := if s.advisory == Some(t) then None else s.advisory, lost := s.lost + InHand(s.tasks[t]))
  }

  function WithPhase(s: Sys, t: TaskId, p: Phase): Sys
    requires t in s.tasks
  {
    s.(tasks := s.tasks[t := s.tasks[t].(phase := p)])
  }

  /** The service of the instance may be in any state at any submit: switches, breaker and ids are not constrained. */
  function SubmitIn(cfg: GuardrailConfig, s: Sys, t: TaskId, svc: Service, req: OrderRequest, gctx: GuardrailContext, reply: Reply): Sys
    requires t in s.tasks && s.tasks[t].phase.Running?
  {
    var p := s.tasks[t].phase;
    var st := SubmitStep(cfg, LoopState(svc, p.orders, [], p.used), req, gctx, reply);
    WithPhase(s, t, Running(p.date, st.orders, st.used))
      .(answered := s.answered + [st.orders[|st.orders| - 1]], issued := s.issued + {req.clientOrderId}, clock := reply.at)
  }

  /** A step whose guard does not hold changes nothing. */
  function Next(cfgs: InstanceId -> GuardrailConfig, s: Sys, e: Step): Sys {
    match e
    case Begin(t, inst) =>
      if t in s.tasks || inst in s.local then s
      else s.(tasks := s.tasks[t := Task(inst, Waiting)], local := s.local[inst := t])
    case TryAdvisory(t) =>
      if !At(s, t) || !s.tasks[t].phase.Waiting? then s
      else if s.advisory.Some? then Remove(s, t)
      else WithPhase(s, t, Entered).(advisory := Some(t))
    case Read(t, now) =>
      if !At(s, t) || !s.tasks[t].phase.Entered? then s
      else WithPhase(s, t, Running(DayOf(now), [], SpentOn(s.table, DayOf(now)))).(clock := now)
    case Submit(t, svc, req, gctx, reply) =>
      if !At(s, t) || !s.tasks[t].phase.Running? || gctx.dailyBuyUsed != s.tasks[t].phase.used then s
      else SubmitIn(cfgs(s.tasks[t].inst), s, t, svc, req, gctx, reply)
    case Record(t) =>
      if !At(s, t) || !s.tasks[t].phase.Running? then s
      else WithPhase(s, t, Recorded).(table := AddOrders(s.table, s.tasks[t].phase.orders))
    case Leave(t) =>
      if !At(s, t) then s else Remove(s, t)
    case Crash(inst) =>
      if inst in s.local && s.local[inst] in s.tasks then Remove(s, s.local[inst]) else s.(local := s.local - {inst})
  }

  function Run(cfgs: InstanceId -> GuardrailConfig, s: Sys, steps: seq<Step>): Sys {
    if steps == [] then s
    else Next(cfgs, Run(cfgs, s, steps[..|steps| - 1]), steps[|steps| - 1])
  }

  // ---------------------------------------------------------------- locks

  ghost predicate LocksHeld(s: Sys) {
    (forall t :: t in s.tasks ==> s.tasks[t].inst in s.local && s.local[s.tasks[t].inst] == t)
    && (forall i :: i in s.local ==> s.local[i] in s.tasks && s.tasks[s.local[i]].inst == i)
    && (forall t :: t in s.tasks && !s.tasks[t].phase.Waiting? ==> s.advisory == Some(t))
    && (s.advisory.Some? ==> s.advisory.value in s.tasks && !s.tasks[s.advisory.value].phase.Waiting?)
  }

  lemma LocksKept(cfgs: InstanceId -> GuardrailConfig, s: Sys, e: Step)
    requires LocksHeld(s)
    ensures LocksHeld(Next(cfgs, s, e))
  {
    hide SubmitStep, SpentOn, AddOrders;
  }

  /** Whatever way a tick ends, both its locks are free again, and the next tick of any instance can enter. */
  lemma {:induction false} NextTickEnters(cfgs: InstanceId -> GuardrailConfig, s: Sys, t: TaskId, e: Step, u: TaskId, inst: InstanceId)
    requires LocksHeld(s) && s.advisory == Some(t) && (e == Leave(t) || e == Crash(s.tasks[t].inst))
    requires u !in s.tasks && (inst !in s.local || inst == s.tasks[t].inst)
    ensures var freed := Next(cfgs, s, e); var entered := Next(cfgs, Next(cfgs, freed, Begin(u, inst)), TryAdvisory(u));
      t !in freed.tasks && freed.advisory == None && s.tasks[t].inst !in freed.local && freed.table == s.table
      && u in entered.tasks && entered.tasks[u] == Task(inst, Entered) && entered.advisory == Some(u)
  {
    hide SubmitStep, SpentOn, AddOrders;
  }

  /** While a tick is under way no other one gets past the locks: it is skipped, on the same instance at once. */
  lemma SecondTickSkips(cfgs: InstanceId -> GuardrailConfig, s: Sys, t: TaskId, u: TaskId, inst: InstanceId)
    requires LocksHeld(s) && s.advisory == Some(t) && u !in s.tasks
    ensures inst in s.local ==> Next(cfgs, s, Begin(u, inst)) == s
    ensures inst !in s.local ==> Next(cfgs, Next(cfgs, s, Begin(u, inst)), TryAdvisory(u)).tasks == s.tasks
  {
    hide SubmitStep, SpentOn, AddOrders;
    var begun := Next(cfgs, s, Begin(u, inst));
    if inst !in s.local {
      assert begun.tasks - {u} == s.tasks;
    }
  }

  /** What one tick has recorded is on the total the next one starts from, on whatever instance and date that is. */
  lemma {:induction false} NextTickCountsRecorded(
    cfgs: InstanceId -> GuardrailConfig, s: Sys, t: TaskId, u: TaskId, inst: InstanceId, now: Instant)
    requires LocksHeld(s) && t in s.tasks && s.tasks[t].phase.Running? && AllNew(s.table, s.tasks[t].phase.orders)
    requires u !in s.tasks && (inst !in s.local || inst == s.tasks[t].inst)
    ensures var freed := Next(cfgs, Next(cfgs, s, Record(t)), Leave(t));
      var v := Next(cfgs, Next(cfgs, Next(cfgs, freed, Begin(u, inst)), TryAdvisory(u)), Read(u, now));
      u in v.tasks && v.tasks[u].phase
        == Running(DayOf(now), [], SpentOn(s.table, DayOf(now)) + SpentOn(s.tasks[t].phase.orders, DayOf(now)))
  {
    hide SubmitStep, SpentOn, AddOrders, AllNew;
    RecordingAddsExactly(s.table, s.tasks[t].phase.orders, DayOf(now));
    var recorded := Next(cfgs, s, Record(t));
    LocksKept(cfgs, s, Record(t));
    assert recorded.table == AddOrders(s.table, s.tasks[t].phase.orders) && recorded.advisory == Some(t);
    NextTickEnters(cfgs, recorded, t, Leave(t), u, inst);
    var entered := Next(cfgs, Next(cfgs, Next(cfgs, recorded, Leave(t)), Begin(u, inst)), TryAdvisory(u));
    assert entered.table == recorded.table;
  }

  // ---------------------------------------------------------------- the cap

  /** No instance is configured with a larger cap. */
  ghost predicate CapsWithin(cfgs: InstanceId -> GuardrailConfig, cap: real) {
    cap >= 0.0 && forall i :: cfgs(i).dailyBuyCap <= cap
  }

  /** A submit that takes place, with an order of nonnegative notional. */
  predicate Submits(s: Sys, e: Step) {
    e.Submit? && At(s, e.t) && s.tasks[e.t].phase.Running?
  }

  predicate Sensible(s: Sys, e: Step) {
    Submits(s, e) ==> e.req.EstimatedNotional().GetOr(0.0) >= 0.0
  }

  /** The order is created on the date its tick read, or on a date without any recorded buy. */
  predicate OnTime(s: Sys, e: Step) {
    Sensible(s, e)
    && (Submits(s, e) ==> DayOf(e.reply.at) == s.tasks[e.t].phase.date || SpentOn(s.table, DayOf(e.reply.at)) == 0.0)
  }

  ghost predicate OnTimeRun(cfgs: InstanceId -> GuardrailConfig, s: Sys, steps: seq<Step>) {
    forall i :: 0 <= i < |steps| ==> OnTime(Run(cfgs, s, steps[..i]), steps[i])
  }

  /** A running task's total is what it read plus what it accepted; no date ends above the cap if it records now. */
  ghost predicate TaskWithinCap(table: seq<OrderResult>, p: Phase, cap: real)
    requires p.Running?
  {
    p.used == SpentOn(table, p.date) + Spent(p.orders)
    && p.used <= cap && SharesNonnegative(p.orders)
    && forall d :: SpentOn(table, d) + SpentOn(p.orders, d) <= cap
  }

  ghost predicate TableWithinCap(table: seq<OrderResult>, cap: real) {
    SharesNonnegative(table) && forall d :: SpentOn(table, d) <= cap
  }

  ghost predicate CapHolds(s: Sys, cap: real) {
    LocksHeld(s) && TableWithinCap(s.table, cap)
    && (forall t :: t in s.tasks && s.tasks[t].phase.Running? ==> TaskWithinCap(s.table, s.tasks[t].phase, cap))
  }

  /** What one submit does to a task: one more result, worth exactly the growth of its total. */
  lemma SubmitResult(
    cfg: GuardrailConfig, svc: Service, orders: seq<OrderResult>, used: real, req: OrderRequest, gctx: GuardrailContext, reply: Reply)
    requires gctx.dailyBuyUsed == used && req.EstimatedNotional().GetOr(0.0) >= 0.0
    ensures var st := SubmitStep(cfg, LoopState(svc, orders, [], used), req, gctx, reply);
      |st.orders| == |orders| + 1 && st.orders[..|orders|] == orders
      && (var res := st.orders[|orders|];
          st.used == used + Spends(res) && Spends(res) >= 0.0 && st.used <= Max(used, cfg.dailyBuyCap)
          && (Spends(res) != 0.0 ==> DayOf(res.createdAt) == DayOf(reply.at))
          && (req.clientOrderId !in svc.seen ==> res.clientOrderId == req.clientOrderId))
  {
    hide RunGuardrails, OrderRequest.EstimatedNotional;
    SubmitStepUsed(cfg, LoopState(svc, orders, [], used), req, gctx, reply);
  }

  lemma SpentAppend(orders: seq<OrderResult>, res: OrderResult)
    ensures Spent(orders + [res]) == Spent(orders) + Spends(res)
  {
    assert (orders + [res])[..|orders|] == orders;
  }

  lemma OneMoreOrder(table: seq<OrderResult>, p: Phase, res: OrderResult, cap: real)
    requires p.Running? && TaskWithinCap(table, p, cap) && SharesNonnegative(table)
    requires Spends(res) >= 0.0 && p.used + Spends(res) <= cap
    requires Spends(res) != 0.0 ==> DayOf(res.createdAt) == p.date || SpentOn(table, DayOf(res.createdAt)) == 0.0
    ensures TaskWithinCap(table, Running(p.date, p.orders + [res], p.used + Spends(res)), cap)
  {
    hide Spends, SpentOn, Spent;
    var more := p.orders + [res];
    SpentAppend(p.orders, res);
    TotalNonnegative(table, p.date);
    assert SharesNonnegative(more);
    forall d ensures SpentOn(table, d) + SpentOn(more, d) <= cap {
      SpentOnAppend(p.orders, res, d);
      OneDateAtMostAll(more, d);
    }
  }

  lemma SubmitKeepsTaskWithinCap(
    cfg: GuardrailConfig, table: seq<OrderResult>, p: Phase, svc: Service, req: OrderRequest, gctx: GuardrailContext, reply: Reply, cap: real)
    requires p.Running? && TaskWithinCap(table, p, cap) && SharesNonnegative(table) && cfg.dailyBuyCap <= cap
    requires gctx.dailyBuyUsed == p.used && req.EstimatedNotional().GetOr(0.0) >= 0.0
    requires DayOf(reply.at) == p.date || SpentOn(table, DayOf(reply.at)) == 0.0
    ensures var st := SubmitStep(cfg, LoopState(svc, p.orders, [], p.used), req, gctx, reply);
      TaskWithinCap(table, Running(p.date, st.orders, st.used), cap)
  {
    hide SubmitStep, Spends, SpentOn, Spent, SharesNonnegative, OrderRequest.EstimatedNotional;
    SubmitResult(cfg, svc, p.orders, p.used, req, gctx, reply);
    var st := SubmitStep(cfg, LoopState(svc, p.orders, [], p.used), req, gctx, reply);
    var res := st.orders[|p.orders|];
    assert st.orders == p.orders + [res];
    OneMoreOrder(table, p, res, cap);
  }

  lemma RecordKeepsCap(table: seq<OrderResult>, p: Phase, cap: real)
    requires p.Running? && TaskWithinCap(table, p, cap) && TableWithinCap(table, cap)
    ensures TableWithinCap(AddOrders(table, p.orders), cap)
  {
    hide SpentOn, AddOrders, SharesNonnegative;
    RecordingKeepsShares(table, p.orders);
    forall d ensures SpentOn(AddOrders(table, p.orders), d) <= cap {
      RecordingAddsAtMost(table, p.orders, d);
    }
  }

  lemma ReadWithinCap(table: seq<OrderResult>, date: int, cap: real)
    requires TableWithinCap(table, cap)
    ensures TaskWithinCap(table, Running(date, [], SpentOn(table, date)), cap)
  {
    assert forall d :: SpentOn([], d) == 0.0;
    assert Spent([]) == 0.0;
  }

  lemma OthersWait(s: Sys, t: TaskId)
    requires LocksHeld(s) && t in s.tasks && !s.tasks[t].phase.Waiting?
    ensures forall u :: u in s.tasks && u != t ==> s.tasks[u].phase.Waiting?
  {
  }

  lemma {:induction false} StepKeepsCap(cfgs: InstanceId -> GuardrailConfig, s: Sys, e: Step, cap: real)
    requires CapHolds(s, cap) && CapsWithin(cfgs, cap) && OnTime(s, e)
    ensures CapHolds(Next(cfgs, s, e), cap)
  {
    hide SubmitStep, SpentOn, AddOrders, TableWithinCap, TaskWithinCap, LocksHeld, OrderRequest.EstimatedNotional;
    LocksKept(cfgs, s, e);
    match e {
      case Submit(t, svc, req, gctx, reply) =>
        if Submits(s, e) && gctx.dailyBuyUsed == s.tasks[t].phase.used {
          SharesOfTable(s.table, cap);
          SubmitKeepsTaskWithinCap(cfgs(s.tasks[t].inst), s.table, s.tasks[t].phase, svc, req, gctx, reply, cap);
        }
      case Record(t) =>
        if At(s, t) && s.tasks[t].phase.Running? {
          OthersWait(s, t);
          RecordKeepsCap(s.table, s.tasks[t].phase, cap);
        }
      case Read(t, now) =>
        ReadWithinCap(s.table, DayOf(now), cap);
      case _ =>
    }
  }

  lemma SharesOfTable(table: seq<OrderResult>, cap: real)
    requires TableWithinCap(table, cap)
    ensures SharesNonnegative(table)
  {
  }

  lemma {:induction false} RunKeepsCap(cfgs: InstanceId -> GuardrailConfig, s: Sys, steps: seq<Step>, cap: real)
    requires CapHolds(s, cap) && CapsWithin(cfgs, cap) && OnTimeRun(cfgs, s, steps)
    ensures CapHolds(Run(cfgs, s, steps), cap)
  {
    hide Next, CapHolds, OnTime;
    if steps != [] {
      var n := |steps| - 1;
      forall i | 0 <= i < n ensures OnTime(Run(cfgs, s, steps[..n][..i]), steps[..n][i]) {
        assert steps[..n][..i] == steps[..i];
      }
      RunKeepsCap(cfgs, s, steps[..n], cap);
      StepKeepsCap(cfgs, Run(cfgs, s, steps[..n]), steps[n], cap);
    }
  }

  lemma IdleHolds(clock: Instant, cap: real)
    requires cap >= 0.0
    ensures CapHolds(Idle(clock), cap)
  {
  }

  ghost predicate OneBodyOnly(s: Sys) {
    forall t, u :: t in s.tasks && u in s.tasks && !s.tasks[t].phase.Waiting? && !s.tasks[u].phase.Waiting? ==> t == u
  }

  ghost predicate NoOrphanLocks(s: Sys) {
    (s.advisory.Some? ==> s.advisory.value in s.tasks) && (forall i :: i in s.local ==> s.local[i] in s.tasks)
  }

  /** What the table holds of one date, alone and with what a live tick would still add, is within the cap. */
  ghost predicate DateWithinCap(s: Sys, date: int, cap: real) {
    SpentOn(s.table, date) <= cap
    && forall t :: t in s.tasks ==> SpentOn(s.table, date) + SpentOn(InHand(s.tasks[t]), date) <= cap
  }

  lemma CapHoldsMeans(s: Sys, cap: real, date: int)
    requires CapHolds(s, cap)
    ensures OneBodyOnly(s) && NoOrphanLocks(s) && DateWithinCap(s, date, cap)
  {
    hide SpentOn;
    assert SpentOn([], date) == 0.0 by {
      NoOrders(date);
    }
  }

  lemma NoOrders(date: int)
    ensures SpentOn([], date) == 0.0
  {
  }

  /**
   * Safety over every interleaving of ticks on any number of instances, crashes included: at most one tick
   * body runs, no lock outlives its holder, and for every date the recorded buys, and the recorded plus the
   * accepted ones still in flight, stay within the largest configured cap.  Ids need not be distinct.
   */
  lemma {:induction false} CapSafety(cfgs: InstanceId -> GuardrailConfig, start: Instant, steps: seq<Step>, cap: real, date: int)
    requires CapsWithin(cfgs, cap) && OnTimeRun(cfgs, Idle(start), steps)
    ensures var s := Run(cfgs, Idle(start), steps);
      OneBodyOnly(s) && NoOrphanLocks(s) && DateWithinCap(s, date, cap)
  {
    hide Run, CapHolds, OnTimeRun, DateWithinCap, OneBodyOnly, NoOrphanLocks, Idle;
    IdleHolds(start, cap);
    RunKeepsCap(cfgs, Idle(start), steps, cap);
    CapHoldsMeans(Run(cfgs, Idle(start), steps), cap, date);
  }

  // ---------------------------------------------------------------- ticks across midnight

  /** Clocks do not run backwards between the instances. */
  predicate Clocked(s: Sys, e: Step) {
    Sensible(s, e)
    && (Submits(s, e) ==> e.reply.at >= s.clock)
    && (e.Read? && At(s, e.t) && s.tasks[e.t].phase.Entered? ==> e.now >= s.clock)
  }

  ghost predicate ClockedRun(cfgs: InstanceId -> GuardrailConfig, s: Sys, steps: seq<Step>) {
    forall i :: 0 <= i < |steps| ==> Clocked(Run(cfgs, s, steps[..i]), steps[i])
  }

  ghost predicate NothingAfter(rows: seq<OrderResult>, date: int) {
    forall d :: d > date ==> SpentOn(rows, d) == 0.0
  }

  /** Nothing is dated after the clock, and nothing recorded is dated after the day a running task read. */
  ghost predicate Dated(s: Sys) {
    NothingAfter(s.table, DayOf(s.clock))
    && forall t :: t in s.tasks && s.tasks[t].phase.Running? ==> DatedTask(s, s.tasks[t].phase)
  }

  ghost predicate DatedTask(s: Sys, p: Phase)
    requires p.Running?
  {
    p.date <= DayOf(s.clock) && NothingAfter(s.table, p.date) && NothingAfter(p.orders, DayOf(s.clock))
  }

  lemma DatedIsOnTime(s: Sys, e: Step)
    requires Dated(s) && Clocked(s, e)
    ensures OnTime(s, e)
  {
    hide SpentOn, OrderRequest.EstimatedNotional;
    if Submits(s, e) {
      assert DatedTask(s, s.tasks[e.t].phase);
    }
  }

  lemma SubmitKeepsDated(
    cfg: GuardrailConfig, svc: Service, p: Phase, req: OrderRequest, gctx: GuardrailContext, reply: Reply, day: int)
    requires p.Running? && gctx.dailyBuyUsed == p.used && req.EstimatedNotional().GetOr(0.0) >= 0.0
    requires NothingAfter(p.orders, day) && day <= DayOf(reply.at)
    ensures NothingAfter(SubmitStep(cfg, LoopState(svc, p.orders, [], p.used), req, gctx, reply).orders, DayOf(reply.at))
  {
    hide SubmitStep, Spends, SpentOn, OrderRequest.EstimatedNotional;
    SubmitResult(cfg, svc, p.orders, p.used, req, gctx, reply);
    var st := SubmitStep(cfg, LoopState(svc, p.orders, [], p.used), req, gctx, reply);
    var res := st.orders[|p.orders|];
    assert st.orders == p.orders + [res];
    forall d | d > DayOf(reply.at) ensures SpentOn(st.orders, d) == 0.0 {
      SpentOnAppend(p.orders, res, d);
    }
  }

  lemma RecordKeepsDated(table: seq<OrderResult>, orders: seq<OrderResult>, day: int)
    requires SharesNonnegative(table) && SharesNonnegative(orders) && NothingAfter(table, day) && NothingAfter(orders, day)
    ensures NothingAfter(AddOrders(table, orders), day)
  {
    hide SpentOn, AddOrders, SharesNonnegative;
    RecordingKeepsShares(table, orders);
    forall d | d > day ensures SpentOn(AddOrders(table, orders), d) == 0.0 {
      RecordingAddsAtMost(table, orders, d);
      TotalNonnegative(AddOrders(table, orders), d);
    }
  }

  lemma StepKeepsDated(cfgs: InstanceId -> GuardrailConfig, s: Sys, e: Step, cap: real)
    requires CapHolds(s, cap) && Dated(s) && Clocked(s, e)
    ensures Dated(Next(cfgs, s, e))
  {
    hide SubmitStep, SpentOn, AddOrders, SharesNonnegative, OrderRequest.EstimatedNotional;
    match e {
      case Submit(t, svc, req, gctx, reply) =>
        if Submits(s, e) && gctx.dailyBuyUsed == s.tasks[t].phase.used {
          OthersWait(s, t);
          SubmitKeepsDated(cfgs(s.tasks[t].inst), svc, s.tasks[t].phase, req, gctx, reply, DayOf(s.clock));
        }
      case Record(t) =>
        if At(s, t) && s.tasks[t].phase.Running? {
          OthersWait(s, t);
          RecordKeepsDated(s.table, s.tasks[t].phase.orders, DayOf(s.clock));
        }
      case Read(t, now) =>
        if At(s, t) && s.tasks[t].phase.Entered? {
          OthersWait(s, t);
          forall d ensures SpentOn([], d) == 0.0 {
            NoOrders(d);
          }
        }
      case _ =>
    }
  }

  lemma {:induction false} ClockedRunKeepsCap(cfgs: InstanceId -> GuardrailConfig, start: Instant, steps: seq<Step>, cap: real)
    requires CapsWithin(cfgs, cap) && ClockedRun(cfgs, Idle(start), steps)
    ensures CapHolds(Run(cfgs, Idle(start), steps), cap) && Dated(Run(cfgs, Idle(start), steps))
  {
    hide Next, CapHolds, Clocked, Dated, OnTime, Idle;
    if steps == [] {
      IdleHolds(start, cap);
      IdleDated(start);
    } else {
      var n := |steps| - 1;
      forall i | 0 <= i < n ensures Clocked(Run(cfgs, Idle(start), steps[..n][..i]), steps[..n][i]) {
        assert steps[..n][..i] == steps[..i];
      }
      ClockedRunKeepsCap(cfgs, start, steps[..n], cap);
      var s := Run(cfgs, Idle(start), steps[..n]);
      DatedIsOnTime(s, steps[n]);
      StepKeepsCap(cfgs, s, steps[n], cap);
      StepKeepsDated(cfgs, s, steps[n], cap);
    }
  }

  lemma IdleDated(start: Instant)
    ensures Dated(Idle(start))
  {
  }

  /**
   * With clocks that never run backwards the same safety holds of every run, also when a tick starts before
   * midnight and creates its orders after it, so that they count on a date the tick never read.
   */
  lemma {:induction false} CapSafetyAcrossMidnight(cfgs: InstanceId -> GuardrailConfig, start: Instant, steps: seq<Step>, cap: real, date: int)
    requires CapsWithin(cfgs, cap) && ClockedRun(cfgs, Idle(start), steps)
    ensures var s := Run(cfgs, Idle(start), steps);
      OneBodyOnly(s) && NoOrphanLocks(s) && DateWithinCap(s, date, cap)
  {
    hide Run, CapHolds, ClockedRun, DateWithinCap, OneBodyOnly, NoOrphanLocks, Idle;
    ClockedRunKeepsCap(cfgs, start, steps, cap);
    CapHoldsMeans(Run(cfgs, Idle(start), steps), cap, date);
  }
}
