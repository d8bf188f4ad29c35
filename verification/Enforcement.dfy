/** The reconciliation in front of every tick, with its consequences for the switch, the engine row and the baseline. */
module Enforcement {
  import opened Prelude
  import opened Orders
  import opened OrderLayer
  import opened HaltProtocol
  import Breaker
  import Reconcile

  /** The part of the database a reconciliation reads and writes. */
  datatype Book = Book(row: Option<Engine>, baseline: Option<Reconcile.Snapshot>, rows: seq<OrderResult>)

  function Mismatching(b: Book, holdings: Reconcile.Quantities): seq<Symbol> {
    if b.baseline.None? then []
    else Reconcile.Reported(b.baseline.value.quantities, holdings, Reconcile.DeltaOf(b.rows, b.baseline.value.ts))
  }

  predicate Halts(b: Book, s: Service, holdings: Reconcile.Quantities) {
    Mismatching(b, holdings) != [] && s.mode.LiveMode? && !s.killSwitch
  }

  function EnforceSpec(b: Book, s: Service, holdings: Reconcile.Quantities, now: Instant, advance: bool): (Book, Service) {
    var halted := Halts(b, s, holdings);
    (b.(row := if halted then Some(Engine(true, s.breaker)) else b.row,
        baseline := if advance || b.baseline.None? then Some(Reconcile.Snapshot(now, holdings)) else b.baseline),
     s.(killSwitch := s.killSwitch || halted))
  }

  class Database {
    var row: Option<Engine>
    var baseline: Option<Reconcile.Snapshot>
    var rows: seq<OrderResult>

    ghost function State(): Book
      reads this
    {
      Book(row, baseline, rows)
    }

    constructor ()
      ensures State() == Book(None, None, [])
    {
      row, baseline, rows := None, None, [];
    }

    method SaveEngineState(killSwitch: bool, breaker: Breaker.BreakerState)
      modifies this
      ensures State() == old(State()).(row := Some(Engine(killSwitch, breaker)))
    {
      row := Some(Engine(killSwitch, breaker));
    }

    method SavePositionsSnapshot(ts: Instant, quantities: Reconcile.Quantities)
      modifies this
      ensures State() == old(State()).(baseline := Some(Reconcile.Snapshot(ts, quantities)))
    {
      baseline := Some(Reconcile.Snapshot(ts, quantities));
    }
  }


  /** Without a baseline the call only creates one; a mismatch in the live mode engages the switch and saves it first. */
  method ReconcileAndEnforce(db: Database, svc: OrderService, holdings: Reconcile.Quantities, now: Instant, advanceBaseline: bool)
    returns (report: Reconcile.Report)
    modifies db, svc
    ensures db.State() == EnforceSpec(old(db.State()), old(svc.State()), holdings, now, advanceBaseline).0
    ensures svc.State() == EnforceSpec(old(db.State()), old(svc.State()), holdings, now, advanceBaseline).1
    ensures report.baseline <==> old(db.baseline).None?
    ensures Reconcile.SymbolsOf(report.discrepancies) == Mismatching(old(db.State()), holdings)
  {
    hide Reconcile.Reported, Reconcile.DeltaOf, Reconcile.Explain;
    if db.baseline.None? {
      report := Reconcile.Reconcile(None, holdings, map[]);
      db.SavePositionsSnapshot(now, holdings);
      return;
    }
    var delta := Reconcile.SubmittedQtySince(db.rows, db.baseline.value.ts);
    report := Reconcile.Reconcile(Some(db.baseline.value.quantities), holdings, delta);
    if !report.Ok() {
      if svc.mode.LiveMode? && !svc.killSwitch {
        svc.EngageKillSwitch();
        var saved := svc.circuitBreaker.DumpState();
        db.SaveEngineState(svc.killSwitch, saved);
      }
    }
    if advanceBaseline {
      db.SavePositionsSnapshot(now, holdings);
    }
  }

  /** Holdings that neither the snapshot nor the orders sent since explain, from the rows themselves. */
  ghost predicate Unexplained(b: Book, holdings: Reconcile.Quantities, x: Symbol) {
    b.baseline.Some?
    && Lookup(holdings, x) != Lookup(b.baseline.value.quantities, x)
         + Reconcile.QuantitySent(b.rows, b.baseline.value.ts, x, Buy) - Reconcile.QuantitySent(b.rows, b.baseline.value.ts, x, Sell)
  }

  lemma MismatchIsUnexplained(b: Book, holdings: Reconcile.Quantities, x: Symbol)
    ensures x in Mismatching(b, holdings) <==> Unexplained(b, holdings, x)
  {
    hide Reconcile.Reported, Reconcile.DeltaOf;
    if b.baseline.Some? {
      Reconcile.DeltaIsNet(b.rows, b.baseline.value.ts, x);
    }
  }

  /**
   * When a reconciliation halts, and what it moves: the switch goes on exactly for unexplained holdings in the live
   * mode, and is never taken back; the row is written exactly then, with the switch on and the breaker as it is; an
   * existing baseline moves exactly when the call says so, and a missing one is always created.
   */
  lemma {:induction false} HaltsExactlyWhen(b: Book, s: Service, holdings: Reconcile.Quantities, now: Instant, advance: bool)
    ensures var (book, after) := EnforceSpec(b, s, holdings, now, advance);
      var halts := s.mode == LiveMode && !s.killSwitch && exists x :: Unexplained(b, holdings, x);
      after == s.(killSwitch := s.killSwitch || halts)
      && book.rows == b.rows
      && book.row == (if halts then Some(Engine(true, s.breaker)) else b.row)
      && book.baseline == (if advance || b.baseline.None? then Some(Reconcile.Snapshot(now, holdings)) else b.baseline)
  {
    hide Mismatching, Unexplained;
    var found := Mismatching(b, holdings);
    forall x ensures x in found <==> Unexplained(b, holdings, x) {
      MismatchIsUnexplained(b, holdings, x);
    }
    if found != [] {
      assert found[0] in found;
      assert Unexplained(b, holdings, found[0]);
    } else {
      assert forall x :: !Unexplained(b, holdings, x);
    }
    assert found != [] <==> exists x :: Unexplained(b, holdings, x);
  }

  /** A dry run only reports, and a read-only call never moves an existing baseline. */
  lemma DryRunAndReadOnly(b: Book, s: Service, holdings: Reconcile.Quantities, now: Instant, advance: bool)
    ensures var (book, after) := EnforceSpec(b, s, holdings, now, advance);
      (s.mode == DryRunMode ==> after == s && book.row == b.row)
      && (!advance && b.baseline.Some? ==> book.baseline == b.baseline)
  {
    hide Mismatching;
  }

  function BookOf(s: Sys): Book {
    Book(s.row, s.baseline, s.rows)
  }

  /** The protocol's steps for one undisturbed reconciliation. */
  function EnforceSteps(halts: bool, now: Instant): seq<Step> {
    if halts then [Compare(now), Enforce, Land(0), Await, Advance] else [Compare(now), Enforce, Advance]
  }

  predicate AtRest(s: Sys) {
    s.node.Some? && s.node.value.phase.Resting? && s.node.value.saves == [] && s.node.value.svc.mode.LiveMode?
  }

  lemma HaltingRun(s: Sys, now: Instant)
    requires AtRest(s) && Deviations(s) != [] && !s.node.value.svc.killSwitch
    ensures var svc := s.node.value.svc;
      Run(s, EnforceSteps(true, now))
        == Up(s.(row := Some(Engine(true, svc.breaker)), baseline := Some(Reconcile.Snapshot(now, s.holdings))),
              Node(svc.(killSwitch := true), Ready, []))
  {
    hide Run, Next, Deviations;
    var svc, b := s.node.value.svc, EnforceSteps(true, now);
    var on, save := svc.(killSwitch := true), Save(Engine(true, svc.breaker), true);
    var s3 := s.(row := Some(save.engine));
    var s5 := s3.(baseline := Some(Reconcile.Snapshot(now, s.holdings)));
    var n0, n1 := Node(svc, Resting, []), Node(svc, Found(now, s.holdings, true), []);
    var n2, n3 := Node(on, Saving(now, s.holdings), [save]), Node(on, Saving(now, s.holdings), []);
    var n4 := Node(on, Checked(now, s.holdings), []);
    NoSteps(s, b);
    Compares(s, n0, now);
    assert s == Up(s, n0);
    Then(s, b, 0, s, Up(s, n1));
    Engages(s, n1, now, s.holdings);
    assert [] + [save] == [save];
    Then(s, b, 1, Up(s, n1), Up(s, n2));
    Lands(s, n2, 0);
    assert [save][..0] + [save][1..] == [];
    Then(s, b, 2, Up(s, n2), Up(s3, n3));
    Awaits(s3, n3, now, s.holdings);
    Then(s, b, 3, Up(s3, n3), Up(s3, n4));
    Replaces(s3, n4, now, s.holdings);
    Then(s, b, 4, Up(s3, n4), Up(s5, Node(on, Ready, [])));
  }

  lemma SameReport(s: Sys)
    ensures Mismatching(BookOf(s), s.holdings) == Deviations(s)
  {
  }

  lemma PassingRun(s: Sys, now: Instant)
    requires AtRest(s) && (Deviations(s) == [] || s.node.value.svc.killSwitch)
    ensures Run(s, EnforceSteps(false, now))
      == Up(s.(baseline := Some(Reconcile.Snapshot(now, s.holdings))), Node(s.node.value.svc, Ready, []))
  {
    hide Run, Next, Deviations;
    var svc, b := s.node.value.svc, EnforceSteps(false, now);
    var mismatch := Deviations(s) != [];
    var n0, n1 := Node(svc, Resting, []), Node(svc, Found(now, s.holdings, mismatch), []);
    var n2 := Node(svc, Checked(now, s.holdings), []);
    NoSteps(s, b);
    Compares(s, n0, now);
    assert s == Up(s, n0);
    Then(s, b, 0, s, Up(s, n1));
    Passes(s, n1, now, s.holdings, mismatch);
    Then(s, b, 1, Up(s, n1), Up(s, n2));
    Replaces(s, n2, now, s.holdings);
    Then(s, b, 2, Up(s, n2), Up(s.(baseline := Some(Reconcile.Snapshot(now, s.holdings))), Node(svc, Ready, [])));
  }

  /**
   * Refinement: in a live process at rest the whole reconciliation does what its steps do in the halt protocol,
   * so that the tick body is entered with exactly this switch, row and baseline.
   */
  lemma EnforcementIsARun(s: Sys, now: Instant)
    requires AtRest(s)
    ensures var svc := s.node.value.svc;
      var (book, after) := EnforceSpec(BookOf(s), svc, s.holdings, now, true);
      Run(s, EnforceSteps(Halts(BookOf(s), svc, s.holdings), now))
        == s.(row := book.row, baseline := book.baseline, node := Some(Node(after, Ready, [])))
  {
    hide Run, EnforceSteps, Mismatching, Deviations;
    SameReport(s);
    if Halts(BookOf(s), s.node.value.svc, s.holdings) {
      HaltingRun(s, now);
    } else {
      PassingRun(s, now);
      assert s.node.value.svc == s.node.value.svc.(killSwitch := s.node.value.svc.killSwitch || false);
    }
  }
}
