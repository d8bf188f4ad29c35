/**
 * The halt of one live instance over ticks, crashes and restarts: the kill switch in memory, its row in the
 * database, the saves still on their way to it, and the position baseline a tick compares and then replaces.
 */
module HaltProtocol {
  import opened Prelude
  import opened Orders
  import opened OrderLayer
  import opened Repository
  import Breaker
  import Reconcile

  /** The engine state row: what a save carries and a restart reads. */
  datatype Engine = Engine(killSwitch: bool, breaker: Breaker.BreakerState)

  /** A save takes its values when it is called and reaches the row later; the tick waits for its own ones. */
  datatype Save = Save(engine: Engine, ofTick: bool)

  datatype Phase =
    | Resting
    | Found(now: Instant, seen: Reconcile.Quantities, mismatch: bool)   // compared; not yet enforced
    | Saving(now: Instant, seen: Reconcile.Quantities)                  // engaged; waits for its save
    | Checked(now: Instant, seen: Reconcile.Quantities)                 // about to replace the baseline
    | Ready
    | Body(killSwitch: bool, orders: seq<OrderResult>)                  // in the order loop, with the switch read at its start
    | Closing                                                           // orders recorded; about to save the engine state
    | Ending                                                            // waits for that save

  datatype Node = Node(svc: Service, phase: Phase, saves: seq<Save>)

  /** `sent` is every request any process ever handed to the executor. */
  datatype Sys = Sys(
    node: Option<Node>, row: Option<Engine>, baseline: Option<Reconcile.Snapshot>, rows: seq<OrderResult>,
    holdings: Reconcile.Quantities, sent: seq<OrderRequest>)

  datatype Step =
    | Boot(hasExecutor: bool)
    | Crash
    | External(holdings: Reconcile.Quantities)
    | Engage                                   // by the operator, or by a manual reconciliation that found a mismatch
    | Release                                  // by the operator only
    | ResetBreaker
    | Land(i: nat)                             // the i-th save in flight reaches the row
    | Compare(now: Instant)
    | Enforce
    | Await
    | Advance
    | Enter(breaker: Breaker.BreakerState)
    | Submit(cfg: GuardrailConfig, order: OrderRequest, ctx: GuardrailContext, reply: Reply)
    | Close
    | Finish
    | Abort                                    // an exception ends the tick; a save it waited for has failed

  function Halted(s: Sys): bool {
    s.row.Some? && s.row.value.killSwitch
  }

  /** The symbols a tick that compares now would report. */
  function Deviations(s: Sys): seq<Symbol> {
    if s.baseline.None? then []
    else Reconcile.Reported(s.baseline.value.quantities, s.holdings, Reconcile.DeltaOf(s.rows, s.baseline.value.ts))
  }

  function Started(row: Option<Engine>, hasExecutor: bool): Node {
    Node(Service(LiveMode, row.Some? && row.value.killSwitch, if row.Some? then row.value.breaker else Breaker.FRESH,
                 map[], [], hasExecutor, []), Resting, [])
  }

  function Saved(n: Node, ofTick: bool): Node {
    n.(saves := n.saves + [Save(Engine(n.svc.killSwitch, n.svc.breaker), ofTick)])
  }

  predicate Awaiting(n: Node) {
    exists i :: 0 <= i < |n.saves| && n.saves[i].ofTick
  }

  function Others(saves: seq<Save>): seq<Save> {
    if saves == [] then []
    else Others(saves[..|saves| - 1]) + (if saves[|saves| - 1].ofTick then [] else [saves[|saves| - 1]])
  }

  /** Steps of a running process; a step whose guard does not hold changes nothing. */
  function NodeNext(s: Sys, n: Node, e: Step): Sys {
    match e
    case Crash => s.(node := None)
    case Engage => s.(node := Some(Saved(n.(svc := n.svc.(killSwitch := true)), false)))
    case Release => s.(node := Some(Saved(n.(svc := n.svc.(killSwitch := false)), false)))
    case ResetBreaker => s.(node := Some(Saved(n.(svc := n.svc.(breaker := Breaker.ResetSpec(n.svc.breaker))), false)))
    case Land(i) =>
      if i < |n.saves| then s.(row := Some(n.saves[i].engine), node := Some(n.(saves := n.saves[..i] + n.saves[i + 1..])))
      else s
    case Abort => s.(node := Some(n.(phase := Resting, saves := Others(n.saves))))
    case _ => TickNext(s, n, e)
  }

  function TickNext(s: Sys, n: Node, e: Step): Sys {
    match (n.phase, e)
    case (Resting, Compare(now)) => s.(node := Some(n.(phase := Found(now, s.holdings, Deviations(s) != []))))
    case (Found(now, seen, mismatch), Enforce) =>
      if mismatch && !n.svc.killSwitch then
        s.(node := Some(Saved(n.(svc := n.svc.(killSwitch := true), phase := Saving(now, seen)), true)))
      else s.(node := Some(n.(phase := Checked(now, seen))))
    case (Saving(now, seen), Await) => if Awaiting(n) then s else s.(node := Some(n.(phase := Checked(now, seen))))
    case (Checked(now, seen), Advance) =>
      s.(baseline := Some(Reconcile.Snapshot(now, seen)), node := Some(n.(phase := Ready)))
    case (Ready, Enter(b)) => s.(node := Some(n.(svc := n.svc.(breaker := b), phase := Body(n.svc.killSwitch, []))))
    case (Body(ks, orders), Submit(cfg, order, ctx, reply)) =>
      if ctx.killSwitch != ks then s
      else
        var (svc, res) := SubmitSpec(cfg, n.svc, order, ctx, reply);
        s.(node := Some(n.(svc := svc, phase := Body(ks, orders + [res]))),
           sent := if svc.placed == n.svc.placed then s.sent else s.sent + [order])
    case (Body(ks, orders), Close) => s.(rows := AddOrders(s.rows, orders), node := Some(n.(phase := Closing)))
    case (Closing, Finish) => s.(node := Some(Saved(n.(phase := Ending), true)))
    case (Ending, Await) => if Awaiting(n) then s else s.(node := Some(n.(phase := Resting)))
    case _ => s
  }

  function Next(s: Sys, e: Step): Sys {
    if e.External? then s.(holdings := e.holdings)
    else if s.node.Some? then NodeNext(s, s.node.value, e)
    else if e.Boot? then s.(node := Some(Started(s.row, e.hasExecutor)))
    else s
  }

  function Run(s: Sys, steps: seq<Step>): Sys {
    if steps == [] then s
    else Next(Run(s, steps[..|steps| - 1]), steps[|steps| - 1])
  }

  // ---------------------------------------------------------------- the halt

  ghost predicate SavesHalt(saves: seq<Save>) {
    forall i :: 0 <= i < |saves| ==> saves[i].engine.killSwitch
  }

  /** The switch is on in memory, in the row, and in every save on its way to the row. */
  ghost predicate Settled(s: Sys) {
    Halted(s) && (s.node.Some? ==> s.node.value.svc.killSwitch && SavesHalt(s.node.value.saves))
  }

  ghost predicate NoRelease(steps: seq<Step>) {
    forall i :: 0 <= i < |steps| ==> !steps[i].Release?
  }

  lemma {:induction false} OthersHalt(saves: seq<Save>)
    requires SavesHalt(saves)
    ensures SavesHalt(Others(saves))
  {
    if saves != [] {
      OthersHalt(saves[..|saves| - 1]);
    }
  }

  /** With the kill switch on a new order is rejected, a repeat is echoed, and the executor is not called. */
  lemma KilledSubmit(cfg: GuardrailConfig, svc: Service, order: OrderRequest, ctx: GuardrailContext, reply: Reply)
    requires svc.killSwitch
    ensures var (after, res) := SubmitSpec(cfg, svc, order, ctx, reply);
      after.placed == svc.placed && after.killSwitch
      && (order.clientOrderId !in svc.seen ==> res.status.Rejected? && KillSwitch in res.violations)
  {
    CodeReported(order, EffectiveContext(ctx, svc.killSwitch, svc.breaker.Tripped()), cfg, KillSwitch);
  }

  lemma SettledKept(s: Sys, e: Step)
    requires Settled(s) && !e.Release?
    ensures Settled(Next(s, e)) && Next(s, e).sent == s.sent
  {
    hide SubmitSpec, AddOrders, Deviations, Others;
    if s.node.Some? {
      var n := s.node.value;
      OthersHalt(n.saves);
      if e.Submit? {
        KilledSubmit(e.cfg, n.svc, e.order, e.ctx, e.reply);
      }
    }
  }

  /**
   * A settled halt holds over any run without a release: ticks, crashes, restarts, breaker resets and changes of
   * the account included, it stays settled and the executor is never called again.
   */
  lemma {:induction false} HaltHolds(s: Sys, steps: seq<Step>)
    requires Settled(s) && NoRelease(steps)
    ensures Settled(Run(s, steps)) && Run(s, steps).sent == s.sent
  {
    hide Next, Settled;
    if steps != [] {
      HaltHolds(s, steps[..|steps| - 1]);
      SettledKept(Run(s, steps[..|steps| - 1]), steps[|steps| - 1]);
    }
  }

  /** And every new order submitted on the way is rejected. */
  lemma {:induction false} HaltRejects(s: Sys, steps: seq<Step>, cfg: GuardrailConfig, order: OrderRequest, ctx: GuardrailContext, reply: Reply)
    requires Settled(s) && NoRelease(steps)
    ensures var v := Run(s, steps);
      v.node.Some? && order.clientOrderId !in v.node.value.svc.seen ==>
        SubmitSpec(cfg, v.node.value.svc, order, ctx, reply).1.status.Rejected?
  {
    hide Run, SubmitSpec;
    HaltHolds(s, steps);
    var v := Run(s, steps);
    if v.node.Some? {
      KilledSubmit(cfg, v.node.value.svc, order, ctx, reply);
    }
  }

  ghost predicate SwitchOn(s: Sys) {
    s.node.Some? ==> s.node.value.svc.killSwitch
  }

  ghost predicate Durable(s: Sys) {
    forall steps :: NoRelease(steps) ==> SwitchOn(Run(s, steps))
  }

  /** The halt survives everything but a release exactly when it is settled. */
  lemma {:induction false} DurableExactlyWhenSettled(s: Sys)
    ensures Durable(s) <==> Settled(s)
  {
    if Settled(s) {
      forall steps | NoRelease(steps) ensures SwitchOn(Run(s, steps)) {
        HaltHolds(s, steps);
      }
    }
    if Durable(s) {
      assert SwitchOn(Run(s, []));
      Restarted(s, []);
      if s.node.Some? {
        forall i | 0 <= i < |s.node.value.saves| ensures s.node.value.saves[i].engine.killSwitch {
          Restarted(s, [Land(i)]);
          assert [Land(i)][..0] == [];
          assert Run(s, [Land(i)]).row == Some(s.node.value.saves[i].engine);
        }
      }
    }
  }

  /** After a crash and a restart the switch is what the row says. */
  lemma Restarted(s: Sys, steps: seq<Step>)
    requires Durable(s) && NoRelease(steps)
    ensures Halted(Run(s, steps))
  {
    var dead, up := steps + [Crash], steps + [Crash] + [Boot(true)];
    assert dead[..|steps|] == steps && up[..|steps| + 1] == dead;
    assert Run(s, dead) == Next(Run(s, steps), Crash);
    assert Run(s, up) == Next(Run(s, dead), Boot(true));
    assert SwitchOn(Run(s, up));
  }

  // ---------------------------------------------------------------- from the deviation to the halt

  /**
   * No release; and until the halt is settled also no other operator step, no failing save of the halt itself, and
   * no change of the account back into agreement with the baseline.  Other changes of it are allowed throughout.
   */
  ghost predicate Undisturbed(s: Sys, e: Step) {
    !e.Release?
    && (!Settled(s) ==>
          (e.External? ==> Deviations(Next(s, e)) != []) && !e.Engage? && !e.ResetBreaker?
          && (e.Abort? && s.node.Some? ==> !s.node.value.phase.Saving?))
  }

  ghost predicate UndisturbedRun(s: Sys, steps: seq<Step>) {
    forall i :: 0 <= i < |steps| ==> Undisturbed(Run(s, steps[..i]), steps[i])
  }

  /** A deviation no tick has yet turned into a persisted halt; whoever is on the way there has not passed the enforcement. */
  ghost predicate Unenforced(n: Node) {
    match n.phase
    case Resting => !n.svc.killSwitch && n.saves == []
    case Found(_, _, mismatch) => mismatch && !n.svc.killSwitch && n.saves == []
    case Saving(_, _) => n.svc.killSwitch && |n.saves| == 1 && n.saves[0].ofTick && n.saves[0].engine.killSwitch
    case _ => false
  }

  ghost predicate Deviating(s: Sys) {
    Deviations(s) != [] && (s.node.Some? ==> Unenforced(s.node.value))
  }

  lemma {:induction false} DeviationStep(s: Sys, e: Step)
    requires Deviating(s) && !Settled(s) && Undisturbed(s, e)
    ensures var v := Next(s, e);
      v.sent == s.sent && (Settled(v) || (Deviating(v) && v.baseline == s.baseline))
  {
    hide SubmitSpec, AddOrders, Deviations, Others;
    var v := Next(s, e);
    NoOthers();
    if !e.External? && !Settled(v) {
      SameDeviations(s, v);
    }
  }

  lemma NoOthers()
    ensures Others([]) == []
  {
  }

  lemma SameDeviations(s: Sys, v: Sys)
    requires v.baseline == s.baseline && v.rows == s.rows && v.holdings == s.holdings
    ensures Deviations(v) == Deviations(s)
  {
  }

  /**
   * From the moment the account deviates from the baseline, however many ticks, crashes and restarts follow and
   * wherever they happen, no order reaches the executor, and the deviation is not absorbed into a new baseline
   * before the kill switch is on record.
   */
  lemma {:induction false} DeviationStopsTrading(s: Sys, steps: seq<Step>)
    requires Deviating(s) && UndisturbedRun(s, steps)
    ensures var v := Run(s, steps);
      v.sent == s.sent && (v.baseline == s.baseline || Halted(v)) && (Settled(v) || (Deviating(v) && v.baseline == s.baseline))
  {
    hide Next, Undisturbed, Deviating;
    if steps != [] {
      var n := |steps| - 1;
      forall i | 0 <= i < n ensures Undisturbed(Run(s, steps[..n][..i]), steps[..n][i]) {
        assert steps[..n][..i] == steps[..i];
      }
      DeviationStopsTrading(s, steps[..n]);
      var v := Run(s, steps[..n]);
      if Settled(v) {
        UndisturbedIsNoRelease(v, steps[n]);
        SettledKept(v, steps[n]);
      } else {
        DeviationStep(v, steps[n]);
      }
    }
  }

  lemma UndisturbedIsNoRelease(s: Sys, e: Step)
    requires Undisturbed(s, e)
    ensures !e.Release?
  {
  }

  // ---------------------------------------------------------------- single steps of a running process

  function Up(s: Sys, n: Node): Sys {
    s.(node := Some(n))
  }

  /** One more step of a script whose first `k` steps are known to lead to `mid`. */
  lemma Then(s: Sys, script: seq<Step>, k: nat, mid: Sys, next: Sys)
    requires k < |script| && Run(s, script[..k]) == mid && Next(mid, script[k]) == next
    ensures Run(s, script[..k + 1]) == next
    ensures k + 1 == |script| ==> Run(s, script) == next
  {
    assert script[..k + 1][..k] == script[..k];
    assert script[..|script|] == script;
  }

  lemma NoSteps(s: Sys, script: seq<Step>)
    ensures Run(s, script[..0]) == s
  {
  }

  lemma Compares(s: Sys, n: Node, now: Instant)
    requires n.phase.Resting?
    ensures Next(Up(s, n), Compare(now)) == Up(s, n.(phase := Found(now, s.holdings, Deviations(s) != [])))
  {
    hide Deviations;
    SameDeviations(s, Up(s, n));
  }

  lemma Engages(s: Sys, n: Node, now: Instant, seen: Reconcile.Quantities)
    requires n.phase == Found(now, seen, true) && !n.svc.killSwitch
    ensures Next(Up(s, n), Enforce)
      == Up(s, Node(n.svc.(killSwitch := true), Saving(now, seen), n.saves + [Save(Engine(true, n.svc.breaker), true)]))
  {
  }

  lemma Passes(s: Sys, n: Node, now: Instant, seen: Reconcile.Quantities, mismatch: bool)
    requires n.phase == Found(now, seen, mismatch) && (n.svc.killSwitch || !mismatch)
    ensures Next(Up(s, n), Enforce) == Up(s, n.(phase := Checked(now, seen)))
  {
  }

  lemma Lands(s: Sys, n: Node, i: nat)
    requires i < |n.saves|
    ensures Next(Up(s, n), Land(i)) == Up(s.(row := Some(n.saves[i].engine)), n.(saves := n.saves[..i] + n.saves[i + 1..]))
  {
  }

  lemma Awaits(s: Sys, n: Node, now: Instant, seen: Reconcile.Quantities)
    requires n.phase == Saving(now, seen) && !Awaiting(n)
    ensures Next(Up(s, n), Await) == Up(s, n.(phase := Checked(now, seen)))
  {
  }

  lemma Replaces(s: Sys, n: Node, now: Instant, seen: Reconcile.Quantities)
    requires n.phase == Checked(now, seen)
    ensures Next(Up(s, n), Advance) == Up(s.(baseline := Some(Reconcile.Snapshot(now, seen))), n.(phase := Ready))
  {
  }

  // ---------------------------------------------------------------- how a halt is lost without a release

  /** A process at rest that would find a deviation at its next tick, with its switch off and no save in flight. */
  ghost predicate AboutToFind(s: Sys) {
    s.node.Some? && s.node.value.phase.Resting? && Unenforced(s.node.value) && Deviations(s) != []
  }

  /** The deviation is now part of the baseline, and the restarted process trades. */
  ghost predicate AbsorbedUnhalted(s: Sys, v: Sys, now: Instant) {
    v.baseline == Some(Reconcile.Snapshot(now, s.holdings)) && v.node.Some? && !v.node.value.svc.killSwitch && !Halted(v)
  }

  /** A breaker reset whose save is slow, around a tick that finds the deviation and persists its halt. */
  function SlowSave(now: Instant): seq<Step> {
    [ResetBreaker, Compare(now), Enforce, Land(1), Await, Advance, Land(0), Crash, Boot(true)]
  }

  /** A tick whose halt cannot be saved, the next tick, and a crash before that one ends. */
  function FailedSave(now: Instant): seq<Step> {
    [Compare(now), Enforce, Abort, Compare(now), Enforce, Advance, Crash, Boot(true)]
  }

  /** The operator engages just before the tick, and the save of that is slow. */
  function EngagedBefore(now: Instant): seq<Step> {
    [Engage, Compare(now), Enforce, Advance, Crash, Boot(true)]
  }

  /**
   * The failing inputs.  A save carries the switch as it was when the save was called: one called before the halt
   * and landing after it turns the row off again.  And a tick that finds the switch on does not save it: after
   * a failed save, or an operator's engagement still on its way, it absorbs the deviation with the halt in memory
   * only.  In all three, a crash then loses the halt although nobody released it.
   */
  lemma {:induction false} HaltLostWithoutRelease(s: Sys, now: Instant)
    requires AboutToFind(s)
    ensures NoRelease(SlowSave(now)) && AbsorbedUnhalted(s, Run(s, SlowSave(now)), now)
    ensures !Halted(s) ==> NoRelease(FailedSave(now)) && AbsorbedUnhalted(s, Run(s, FailedSave(now)), now)
    ensures !Halted(s) ==> NoRelease(EngagedBefore(now)) && AbsorbedUnhalted(s, Run(s, EngagedBefore(now)), now)
  {
    hide Run, AbsorbedUnhalted, AboutToFind, Halted;
    SlowSaveRun(s, now);
    if !Halted(s) {
      FailedSaveRun(s, now);
      EngagedBeforeRun(s, now);
    }
  }

  lemma Resets(s: Sys, n: Node)
    requires s.node == Some(n) && n.phase.Resting? && n.saves == [] && !n.svc.killSwitch
    ensures var calm := n.svc.(breaker := Breaker.ResetSpec(n.svc.breaker));
      Next(s, ResetBreaker) == Up(s, Node(calm, Resting, [Save(Engine(false, calm.breaker), false)]))
  {
    var calm := n.svc.(breaker := Breaker.ResetSpec(n.svc.breaker));
    assert n.saves + [Save(Engine(false, calm.breaker), false)] == [Save(Engine(false, calm.breaker), false)];
  }

  /** The tick is dropped together with the save it waited for; the switch stays on in memory. */
  lemma Fails(s: Sys, killed: Service, now: Instant, seen: Reconcile.Quantities, save: Save)
    requires save.ofTick
    ensures Next(Up(s, Node(killed, Saving(now, seen), [save])), Abort) == Up(s, Node(killed, Resting, []))
  {
    assert [save][..0] == [] && Others([]) == [] && Others([save]) == [];
  }

  /** A crash and a restart leave a process at rest whose switch is what the row says. */
  lemma Restarts(s: Sys, n: Node)
    ensures Next(Up(s, n), Crash) == s.(node := None)
    ensures Next(s.(node := None), Boot(true)) == s.(node := Some(Started(s.row, true)))
    ensures Started(s.row, true).svc.killSwitch == Halted(s)
  {
  }

  lemma SlowSaveRun(s: Sys, now: Instant)
    requires AboutToFind(s)
    ensures AbsorbedUnhalted(s, Run(s, SlowSave(now)), now)
  {
    hide Run, Next, Deviations, Others;
    var n, b := s.node.value, SlowSave(now);
    var calm := n.svc.(breaker := Breaker.ResetSpec(n.svc.breaker));
    var killed := calm.(killSwitch := true);
    var off, on := Save(Engine(false, calm.breaker), false), Save(Engine(true, calm.breaker), true);
    var s4 := s.(row := Some(on.engine));
    var s6 := s4.(baseline := Some(Reconcile.Snapshot(now, s.holdings)));
    var s7 := s6.(row := Some(off.engine));
    var n1, n2 := Node(calm, Resting, [off]), Node(calm, Found(now, s.holdings, true), [off]);
    var n3, n4 := Node(killed, Saving(now, s.holdings), [off, on]), Node(killed, Saving(now, s.holdings), [off]);
    var n5, n6 := Node(killed, Checked(now, s.holdings), [off]), Node(killed, Ready, [off]);
    var n7 := Node(killed, Ready, []);
    NoSteps(s, b);
    Resets(s, n);
    Then(s, b, 0, s, Up(s, n1));
    Compares(s, n1, now);
    Then(s, b, 1, Up(s, n1), Up(s, n2));
    Engages(s, n2, now, s.holdings);
    assert [off] + [on] == [off, on];
    Then(s, b, 2, Up(s, n2), Up(s, n3));
    Lands(s, n3, 1);
    assert [off, on][..1] + [off, on][2..] == [off];
    Then(s, b, 3, Up(s, n3), Up(s4, n4));
    Awaits(s4, n4, now, s.holdings);
    Then(s, b, 4, Up(s4, n4), Up(s4, n5));
    Replaces(s4, n5, now, s.holdings);
    Then(s, b, 5, Up(s4, n5), Up(s6, n6));
    Lands(s6, n6, 0);
    assert [off][..0] + [off][1..] == [];
    Then(s, b, 6, Up(s6, n6), Up(s7, n7));
    Restarts(s7, n7);
    Then(s, b, 7, Up(s7, n7), s7.(node := None));
    Then(s, b, 8, s7.(node := None), s7.(node := Some(Started(s7.row, true))));
  }

  lemma FailedSaveRun(s: Sys, now: Instant)
    requires AboutToFind(s) && !Halted(s)
    ensures AbsorbedUnhalted(s, Run(s, FailedSave(now)), now)
  {
    hide Run, Next, Deviations, Others;
    var n, b := s.node.value, FailedSave(now);
    var save, killed := Save(Engine(true, n.svc.breaker), true), n.svc.(killSwitch := true);
    var s6 := s.(baseline := Some(Reconcile.Snapshot(now, s.holdings)));
    var n1, n2 := Node(n.svc, Found(now, s.holdings, true), []), Node(killed, Saving(now, s.holdings), [save]);
    var n3, n4 := Node(killed, Resting, []), Node(killed, Found(now, s.holdings, true), []);
    var n5, n6 := Node(killed, Checked(now, s.holdings), []), Node(killed, Ready, []);
    NoSteps(s, b);
    Compares(s, n, now);
    assert s == Up(s, n) && n.(phase := n1.phase) == n1;
    Then(s, b, 0, s, Up(s, n1));
    Engages(s, n1, now, s.holdings);
    assert [] + [save] == [save];
    Then(s, b, 1, Up(s, n1), Up(s, n2));
    Fails(s, killed, now, s.holdings, save);
    Then(s, b, 2, Up(s, n2), Up(s, n3));
    Compares(s, n3, now);
    Then(s, b, 3, Up(s, n3), Up(s, n4));
    Passes(s, n4, now, s.holdings, true);
    Then(s, b, 4, Up(s, n4), Up(s, n5));
    Replaces(s, n5, now, s.holdings);
    Then(s, b, 5, Up(s, n5), Up(s6, n6));
    Restarts(s6, n6);
    Then(s, b, 6, Up(s6, n6), s6.(node := None));
    Then(s, b, 7, s6.(node := None), s6.(node := Some(Started(s6.row, true))));
  }

  lemma EngagesByHand(s: Sys, n: Node)
    requires s.node == Some(n) && n.phase.Resting? && n.saves == []
    ensures Next(s, Engage) == Up(s, Node(n.svc.(killSwitch := true), Resting, [Save(Engine(true, n.svc.breaker), false)]))
  {
    assert n.saves + [Save(Engine(true, n.svc.breaker), false)] == [Save(Engine(true, n.svc.breaker), false)];
  }

  lemma EngagedBeforeRun(s: Sys, now: Instant)
    requires AboutToFind(s) && !Halted(s)
    ensures AbsorbedUnhalted(s, Run(s, EngagedBefore(now)), now)
  {
    hide Run, Next, Deviations, Others;
    var n, b := s.node.value, EngagedBefore(now);
    var saves, killed := [Save(Engine(true, n.svc.breaker), false)], n.svc.(killSwitch := true);
    var s4 := s.(baseline := Some(Reconcile.Snapshot(now, s.holdings)));
    var n1, n2 := Node(killed, Resting, saves), Node(killed, Found(now, s.holdings, true), saves);
    var n3, n4 := Node(killed, Checked(now, s.holdings), saves), Node(killed, Ready, saves);
    NoSteps(s, b);
    EngagesByHand(s, n);
    Then(s, b, 0, s, Up(s, n1));
    Compares(s, n1, now);
    Then(s, b, 1, Up(s, n1), Up(s, n2));
    Passes(s, n2, now, s.holdings, true);
    Then(s, b, 2, Up(s, n2), Up(s, n3));
    Replaces(s, n3, now, s.holdings);
    Then(s, b, 3, Up(s, n3), Up(s4, n4));
    Restarts(s4, n4);
    Then(s, b, 4, Up(s4, n4), s4.(node := None));
    Then(s, b, 5, s4.(node := None), s4.(node := Some(Started(s4.row, true))));
  }

  // ---------------------------------------------------------------- the protocol does trade, record and restore

  /** Without a halt an order that passes the guards in the body of a tick reaches the executor. */
  lemma {:induction false} UnhaltedOrderIsSent(
    s: Sys, n: Node, orders: seq<OrderResult>, cfg: GuardrailConfig, order: OrderRequest, ctx: GuardrailContext, reply: Reply)
    requires s.node == Some(n) && n.phase == Body(false, orders) && !ctx.killSwitch && n.svc.mode == LiveMode && n.svc.hasExecutor
    requires order.clientOrderId !in n.svc.seen && SubmitSpec(cfg, n.svc, order, ctx, reply).1.violations == []
    ensures var v := Next(s, Step.Submit(cfg, order, ctx, reply));
      v.sent == s.sent + [order] && v.node.Some?
      && exists res :: v.node.value.phase == Body(false, orders + [res]) && res.request == order && res.status in {Submitted, Failed}
  {
    hide SubmitSpec;
    NewOrderAnswered(cfg, n.svc, order, ctx, reply);
    var (svc, res) := SubmitSpec(cfg, n.svc, order, ctx, reply);
    assert svc.placed != n.svc.placed by { LongerLog(n.svc.placed, order); }
    assert Next(s, Step.Submit(cfg, order, ctx, reply)).node.value.phase == Body(false, orders + [res]);
  }

  /**
   * The orders of a tick meet the breaker the tick has assessed, and the switch as it is: the first one reaches the
   * executor exactly when every guard passes it under those two.
   */
  lemma {:induction false} BodyGuardsWithAssessed(
    s: Sys, n: Node, b: Breaker.BreakerState, cfg: GuardrailConfig, order: OrderRequest, ctx: GuardrailContext, reply: Reply)
    requires s.node == Some(n) && n.phase == Ready && n.svc.mode == LiveMode && n.svc.hasExecutor
    requires order.clientOrderId !in n.svc.seen && ctx.killSwitch == n.svc.killSwitch
    ensures var v, tripped := Next(Next(s, Enter(b)), Step.Submit(cfg, order, ctx, reply)),
                              b.drawdownHalt || (b.dailyHaltDate.Some? && b.dailyHaltDate == b.today);
      var eff := ctx.(circuitBreakerHalt := ctx.circuitBreakerHalt || tripped);
      v.sent == s.sent + (if RunGuardrails(order, eff, cfg) == [] then [order] else [])
  {
    hide RunGuardrails;
    var svc := n.svc.(breaker := b);
    assert EffectiveContext(ctx, svc.killSwitch, b.Tripped()) == ctx.(circuitBreakerHalt := ctx.circuitBreakerHalt || b.Tripped());
    var after := SubmitSpec(cfg, svc, order, ctx, reply).0;
    var passed := RunGuardrails(order, EffectiveContext(ctx, svc.killSwitch, b.Tripped()), cfg) == [];
    assert after.placed == svc.placed + (if passed then [order] else []);
    LongerLog(svc.placed, order);
    assert svc.placed + [] == svc.placed && s.sent + [] == s.sent;
    assert (after.placed == svc.placed) <==> !passed;
  }

  lemma LongerLog(log: seq<OrderRequest>, order: OrderRequest)
    ensures log + [order] != log
  {
    assert |log + [order]| == |log| + 1;
  }

  /** What a tick does after its last order: record, save, wait for the save, and rest. */
  function EndOfTick(): seq<Step> {
    [Close, Finish, Land(0), Await]
  }

  /** An undisturbed end of a tick leaves the orders on record and the switch and the breaker in the row. */
  lemma {:induction false} TickIsRecordedAndSaved(s: Sys, svc: Service, killSwitch: bool, orders: seq<OrderResult>)
    requires s.node == Some(Node(svc, Body(killSwitch, orders), []))
    ensures Run(s, EndOfTick())
      == s.(rows := AddOrders(s.rows, orders), row := Some(Engine(svc.killSwitch, svc.breaker)), node := Some(Node(svc, Resting, [])))
  {
    hide Run, Next, AddOrders;
    var b, save := EndOfTick(), Save(Engine(svc.killSwitch, svc.breaker), true);
    var s1 := s.(rows := AddOrders(s.rows, orders));
    var s3 := s1.(row := Some(save.engine));
    NoSteps(s, b);
    Closes(s, Node(svc, Body(killSwitch, orders), []), killSwitch, orders);
    assert s == Up(s, Node(svc, Body(killSwitch, orders), []));
    Then(s, b, 0, s, Up(s1, Node(svc, Closing, [])));
    Finishes(s1, Node(svc, Closing, []));
    assert [] + [save] == [save];
    Then(s, b, 1, Up(s1, Node(svc, Closing, [])), Up(s1, Node(svc, Ending, [save])));
    Lands(s1, Node(svc, Ending, [save]), 0);
    assert [save][..0] + [save][1..] == [];
    Then(s, b, 2, Up(s1, Node(svc, Ending, [save])), Up(s3, Node(svc, Ending, [])));
    Rests(s3, Node(svc, Ending, []));
    Then(s, b, 3, Up(s3, Node(svc, Ending, [])), Up(s3, Node(svc, Resting, [])));
  }

  lemma Closes(s: Sys, n: Node, killSwitch: bool, orders: seq<OrderResult>)
    requires n.phase == Body(killSwitch, orders)
    ensures Next(Up(s, n), Close) == Up(s.(rows := AddOrders(s.rows, orders)), n.(phase := Closing))
  {
  }

  lemma Finishes(s: Sys, n: Node)
    requires n.phase == Closing
    ensures Next(Up(s, n), Finish)
      == Up(s, n.(phase := Ending, saves := n.saves + [Save(Engine(n.svc.killSwitch, n.svc.breaker), true)]))
  {
  }

  lemma Rests(s: Sys, n: Node)
    requires n.phase == Ending && !Awaiting(n)
    ensures Next(Up(s, n), Await) == Up(s, n.(phase := Resting))
  {
  }

  /** A release undoes an engagement once its save has landed: switch off in memory and in the row, all else as before. */
  lemma {:induction false} ReleaseUndoesEngage(s: Sys, n: Node)
    requires s.node == Some(n) && n.saves == [] && !n.svc.killSwitch
    ensures var script := [Engage, Land(0), Release, Land(0)];
      Halted(Run(s, script[..2])) && Run(s, script) == s.(row := Some(Engine(false, n.svc.breaker)))
  {
    hide Run, Next, Others;
    var script := [Engage, Land(0), Release, Land(0)];
    var on, off := Save(Engine(true, n.svc.breaker), false), Save(Engine(false, n.svc.breaker), false);
    var killed := n.(svc := n.svc.(killSwitch := true));
    var s2 := s.(row := Some(on.engine));
    NoSteps(s, script);
    Engaged(s, n);
    assert s == Up(s, n);
    Then(s, script, 0, s, Up(s, killed.(saves := [on])));
    Lands(s, killed.(saves := [on]), 0);
    assert [on][..0] + [on][1..] == [];
    Then(s, script, 1, Up(s, killed.(saves := [on])), Up(s2, killed));
    Released(s2, killed);
    Then(s, script, 2, Up(s2, killed), Up(s2, n.(saves := [off])));
    Lands(s2, n.(saves := [off]), 0);
    assert [off][..0] + [off][1..] == [];
    Then(s, script, 3, Up(s2, n.(saves := [off])), Up(s2.(row := Some(off.engine)), n));
  }

  lemma Engaged(s: Sys, n: Node)
    requires n.saves == []
    ensures Next(Up(s, n), Engage) == Up(s, n.(svc := n.svc.(killSwitch := true), saves := [Save(Engine(true, n.svc.breaker), false)]))
  {
    assert n.saves + [Save(Engine(true, n.svc.breaker), false)] == [Save(Engine(true, n.svc.breaker), false)];
  }

  lemma Released(s: Sys, n: Node)
    requires n.saves == []
    ensures Next(Up(s, n), Release) == Up(s, n.(svc := n.svc.(killSwitch := false), saves := [Save(Engine(false, n.svc.breaker), false)]))
  {
    assert n.saves + [Save(Engine(false, n.svc.breaker), false)] == [Save(Engine(false, n.svc.breaker), false)];
  }

  /**
   * A tick that compares after the account has changed finds a mismatch exactly when some symbol is held in another
   * quantity than the baseline and the orders sent since then explain.
   */
  lemma {:induction false} DeviationIsFound(s: Sys, n: Node, holdings: Reconcile.Quantities, now: Instant)
    requires s.node == Some(n) && n.phase == Resting
    ensures var v := Next(Next(s, External(holdings)), Compare(now));
      v.node.Some? && v.node.value.phase.Found? && v.node.value.phase.seen == holdings
      && (v.node.value.phase.mismatch <==> exists x: Symbol :: UnexplainedHolding(s, holdings, x))
  {
    hide Reconcile.Reported, Reconcile.DeltaOf;
    if s.baseline.Some? {
      var was, found := s.baseline.value, Deviations(s.(holdings := holdings));
      forall x: Symbol ensures x in found <==> UnexplainedHolding(s, holdings, x) {
        Reconcile.DeltaIsNet(s.rows, was.ts, x);
      }
      assert found != [] ==> found[0] in found;
    }
  }

  ghost predicate UnexplainedHolding(s: Sys, holdings: Reconcile.Quantities, x: Symbol) {
    s.baseline.Some?
    && Lookup(holdings, x) != Lookup(s.baseline.value.quantities, x)
         + Reconcile.QuantitySent(s.rows, s.baseline.value.ts, x, Buy) - Reconcile.QuantitySent(s.rows, s.baseline.value.ts, x, Sell)
  }

  /** An exception ends the tick and its own save only: every other save is still on its way. */
  lemma {:induction false} AbortKeepsOtherSaves(s: Sys, n: Node, save: Save)
    requires s.node == Some(n)
    ensures var v := Next(s, Abort);
      v == s.(node := v.node) && v.node.Some? && v.node.value.phase == Resting && v.node.value.svc == n.svc
      && multiset(v.node.value.saves)[save] == if save.ofTick then 0 else multiset(n.saves)[save]
  {
    OthersCounted(n.saves, save);
  }

  lemma {:induction false} OthersCounted(saves: seq<Save>, save: Save)
    ensures multiset(Others(saves))[save] == if save.ofTick then 0 else multiset(saves)[save]
  {
    if saves != [] {
      var n := |saves| - 1;
      OthersCounted(saves[..n], save);
      assert saves == saves[..n] + [saves[n]];
    }
  }

  /** A restarted process has the switch and the breaker of the row, and remembers no order. */
  lemma RestartRestores(s: Sys, hasExecutor: bool)
    requires s.node == None
    ensures var v := Next(s, Boot(hasExecutor));
      v == s.(node := v.node) && v.node.Some? && v.node.value.phase == Resting && v.node.value.saves == []
      && (var svc := v.node.value.svc;
          svc.killSwitch == (if s.row.Some? then s.row.value.killSwitch else false)
          && svc.breaker == (if s.row.Some? then s.row.value.breaker else Breaker.FRESH)
          && svc.mode == LiveMode && svc.seen == map[] && svc.ledger == [] && svc.hasExecutor == hasExecutor)
  {
  }
}
