/** Reconciling the positions the system believes in with the broker's, and what that means over runs. */
module Reconcile {
  import opened Prelude
  import opened Sorting
  import opened Orders

  datatype Kind = NewSymbol | MissingSymbol | QuantityMismatch

  datatype Discrepancy = Discrepancy(kind: Kind, symbol: Symbol, expected: real, actual: real)

  datatype Report = Report(baseline: bool, discrepancies: seq<Discrepancy>) {
    predicate Ok() {
      discrepancies == []
    }
  }

  type Quantities = map<Symbol, real>

  function Expected(previous: Quantities, delta: Quantities, s: Symbol): real {
    Lookup(previous, s) + Lookup(delta, s)
  }

  predicate Mismatch(previous: Quantities, current: Quantities, delta: Quantities, s: Symbol) {
    Lookup(current, s) != Expected(previous, delta, s)
  }

  function Explain(previous: Quantities, current: Quantities, delta: Quantities, s: Symbol): Discrepancy {
    var expected := Expected(previous, delta, s);
    var kind := if s !in previous && s !in delta then NewSymbol
                else if s !in current && expected != 0.0 then MissingSymbol
                else QuantityMismatch;
    Discrepancy(kind, s, expected, Lookup(current, s))
  }

  function SymbolsOf(ds: seq<Discrepancy>): (r: seq<Symbol>)
    ensures |r| == |ds|
  {
    seq(|ds|, i requires 0 <= i < |ds| => ds[i].symbol)
  }

  /** The mismatching symbols among some keys, each explained once, in order. */
  ghost predicate Explains(ds: seq<Discrepancy>, keys: seq<Symbol>, previous: Quantities, current: Quantities, delta: Quantities) {
    StrictlySorted(SymbolsOf(ds))
    && (forall s :: s in SymbolsOf(ds) <==> s in keys && Mismatch(previous, current, delta, s))
    && (forall i :: 0 <= i < |ds| ==> ds[i] == Explain(previous, current, delta, ds[i].symbol))
  }

  lemma ExplainsStep(ds: seq<Discrepancy>, keys: seq<Symbol>, i: nat, previous: Quantities, current: Quantities, delta: Quantities)
    requires i < |keys| && StrictlySorted(keys) && Explains(ds, keys[..i], previous, current, delta)
    ensures var s := keys[i];
      Explains(if Mismatch(previous, current, delta, s) then ds + [Explain(previous, current, delta, s)] else ds,
               keys[..i + 1], previous, current, delta)
  {
    hide Mismatch, Expected, Lookup;
    var s := keys[i];
    var entry := Explain(previous, current, delta, s);
    assert keys[..i + 1] == keys[..i] + [s];
    assert SymbolsOf(ds + [entry]) == SymbolsOf(ds) + [s];
    assert forall y :: y in keys[..i] ==> y < s;
    forall j | 0 <= j < |ds| ensures SymbolsOf(ds)[j] < s {
      assert SymbolsOf(ds)[j] in SymbolsOf(ds);
    }
  }

  /** Compares over every symbol mentioned anywhere; without an earlier snapshot the call only sets the baseline. */
  method Reconcile(previous: Option<Quantities>, current: Quantities, delta: Quantities) returns (report: Report)
    ensures previous.None? ==> report == Report(true, [])
    ensures previous.Some? ==>
      !report.baseline && FullReport(report.discrepancies, previous.value, current, delta)
  {
    hide Sorted, Mismatch, Explain, FullReport;
    if previous.None? {
      return Report(true, []);
    }
    var prev := previous.value;
    var keys := Sorted(prev.Keys + current.Keys + delta.Keys);
    var ds: seq<Discrepancy> := [];
    for i := 0 to |keys|
      invariant Explains(ds, keys[..i], prev, current, delta)
    {
      ExplainsStep(ds, keys, i, prev, current, delta);
      if Mismatch(prev, current, delta, keys[i]) {
        ds := ds + [Explain(prev, current, delta, keys[i])];
      }
    }
    assert keys[..|keys|] == keys;
    ExplainsAll(ds, keys, prev, current, delta);
    report := Report(false, ds);
  }

  /** Exactly the mismatching symbols are reported, in order, each with its explanation. */
  ghost predicate FullReport(ds: seq<Discrepancy>, previous: Quantities, current: Quantities, delta: Quantities) {
    SymbolsOf(ds) == Reported(previous, current, delta)
    && forall i :: 0 <= i < |ds| ==> ds[i] == Explain(previous, current, delta, ds[i].symbol)
  }

  lemma ExplainsAll(ds: seq<Discrepancy>, keys: seq<Symbol>, previous: Quantities, current: Quantities, delta: Quantities)
    requires Explains(ds, keys, previous, current, delta)
    requires forall s :: s in keys <==> s in previous.Keys + current.Keys + delta.Keys
    ensures FullReport(ds, previous, current, delta)
  {
    hide Sorted, Explain;
    SortedUnique(SymbolsOf(ds), Reported(previous, current, delta));
  }

  /** The mismatching symbols, each once and in order. */
  function Reported(previous: Quantities, current: Quantities, delta: Quantities): (r: seq<Symbol>)
    ensures StrictlySorted(r)
    ensures forall s :: s in r <==> Mismatch(previous, current, delta, s)
  {
    Sorted(set s | s in previous.Keys + current.Keys + delta.Keys && Mismatch(previous, current, delta, s))
  }

  /**
   * What an entry says: unknown to the snapshot and to the orders sent it is new, known but not held any more it is
   * missing, otherwise its quantity is wrong; and the two quantities differ as given.
   */
  lemma EntryMeans(previous: Quantities, current: Quantities, delta: Quantities, s: Symbol)
    requires Lookup(current, s) != Lookup(previous, s) + Lookup(delta, s)
    ensures var d, sentOrKnown := Explain(previous, current, delta, s), s in previous || s in delta;
      d.symbol == s && d.actual == Lookup(current, s) && d.expected == Lookup(previous, s) + Lookup(delta, s)
      && (d.kind == NewSymbol <==> s in current && !sentOrKnown)
      && (d.kind == MissingSymbol <==> s !in current && sentOrKnown)
      && (d.kind == QuantityMismatch <==> s in current && sentOrKnown)
  {
  }

  // ---------------------------------------------------------------- submitted orders since a snapshot

  predicate Moves(row: OrderResult, since: Instant) {
    row.status.Submitted? && row.createdAt > since && row.request.quantity.Some?
  }

  function Signed(row: OrderResult): real
    requires row.request.quantity.Some?
  {
    if row.request.side.Buy? then row.request.quantity.value else -row.request.quantity.value
  }

  function DeltaOf(rows: seq<OrderResult>, since: Instant): Quantities {
    if rows == [] then map[]
    else
      var before, row := DeltaOf(rows[..|rows| - 1], since), rows[|rows| - 1];
      if Moves(row, since) then before[row.request.symbol := Lookup(before, row.request.symbol) + Signed(row)] else before
  }

  method SubmittedQtySince(rows: seq<OrderResult>, since: Instant) returns (delta: Quantities)
    ensures delta == DeltaOf(rows, since)
  {
    delta := map[];
    for i := 0 to |rows|
      invariant delta == DeltaOf(rows[..i], since)
    {
      assert rows[..i + 1][..i] == rows[..i];
      if Moves(rows[i], since) {
        var s := rows[i].request.symbol;
        delta := delta[s := Lookup(delta, s) + Signed(rows[i])];
      }
    }
    assert rows[..|rows|] == rows;
  }

  /** Total quantity of one symbol sent on one side after an instant. */
  function QuantitySent(rows: seq<OrderResult>, since: Instant, s: Symbol, side: Side): real {
    if rows == [] then 0.0
    else
      var row := rows[|rows| - 1];
      QuantitySent(rows[..|rows| - 1], since, s, side)
      + (if row.status == Submitted && row.createdAt > since && row.request.symbol == s && row.request.side == side
         then row.request.quantity.GetOr(0.0) else 0.0)
  }

  /** The delta of a symbol is what was bought of it less what was sold of it. */
  lemma {:induction false} DeltaIsNet(rows: seq<OrderResult>, since: Instant, s: Symbol)
    ensures Lookup(DeltaOf(rows, since), s) == QuantitySent(rows, since, s, Buy) - QuantitySent(rows, since, s, Sell)
  {
    if rows != [] {
      DeltaIsNet(rows[..|rows| - 1], since, s);
    }
  }

  /** Every symbol of the delta was sent. */
  lemma {:induction false} DeltaKnows(rows: seq<OrderResult>, since: Instant, s: Symbol)
    ensures s in DeltaOf(rows, since) <==> exists i :: 0 <= i < |rows| && SentAfter(rows[i], since, s)
  {
    if rows != [] {
      var n := |rows| - 1;
      DeltaKnows(rows[..n], since, s);
      if i :| 0 <= i < n && SentAfter(rows[..n][i], since, s) {
        assert SentAfter(rows[i], since, s);
      }
      if i :| 0 <= i < |rows| && SentAfter(rows[i], since, s) && !SentAfter(rows[n], since, s) {
        assert SentAfter(rows[..n][i], since, s);
      }
      assert SentAfter(rows[n], since, s) <==> Moves(rows[n], since) && rows[n].request.symbol == s;
    }
  }

  /** An order for the symbol, in shares, reached the broker after the instant. */
  predicate SentAfter(row: OrderResult, since: Instant, s: Symbol) {
    row.status == Submitted && row.createdAt > since && row.request.symbol == s && row.request.quantity.Some?
  }

  lemma {:induction false} NothingSince(rows: seq<OrderResult>, since: Instant, s: Symbol)
    requires forall i :: 0 <= i < |rows| ==> rows[i].createdAt <= since
    ensures QuantitySent(rows, since, s, Buy) == 0.0 && QuantitySent(rows, since, s, Sell) == 0.0
  {
    if rows != [] {
      NothingSince(rows[..|rows| - 1], since, s);
    }
  }

  // ---------------------------------------------------------------- whole runs

  datatype Snapshot = Snapshot(ts: Instant, quantities: Quantities)

  datatype Event =
    | Recorded(row: OrderResult)                  // an order result reaches the table; a submitted one is executed
    | External(symbol: Symbol, change: real)      // the account changes outside the system
    | Tick(now: Instant)                          // holdings are read, compared, and become the new snapshot

  /** `external` is the history of outside changes since the last snapshot; `reported` is the last tick's list. */
  datatype World = World(
    clock: Instant, holdings: Quantities, rows: seq<OrderResult>, snapshot: Option<Snapshot>,
    external: Quantities, reported: seq<Symbol>)

  function Add(q: Quantities, s: Symbol, x: real): Quantities {
    q[s := Lookup(q, s) + x]
  }

  function TickReport(w: World): seq<Symbol> {
    if w.snapshot.None? then []
    else Reported(w.snapshot.value.quantities, w.holdings, DeltaOf(w.rows, w.snapshot.value.ts))
  }

  /** What the broker does with an order it was sent: shares come in for a buy and go out for a sell. */
  function Executed(holdings: Quantities, row: OrderResult): Quantities {
    if row.status != Submitted || row.request.quantity.None? then holdings
    else
      match row.request.side
      case Buy => Add(holdings, row.request.symbol, row.request.quantity.value)
      case Sell => Add(holdings, row.request.symbol, -row.request.quantity.value)
  }

  function Step(w: World, e: Event): World {
    match e
    case Recorded(row) =>
      w.(clock := row.createdAt, rows := w.rows + [row], holdings := Executed(w.holdings, row))
    case External(s, change) =>
      w.(holdings := Add(w.holdings, s, change), external := Add(w.external, s, change))
    case Tick(now) =>
      w.(clock := now, snapshot := Some(Snapshot(now, w.holdings)), external := map[], reported := TickReport(w))
  }

  /** Time moves forward: a tick starts no earlier than what is on record, and orders are created after their tick starts. */
  predicate Timely(w: World, e: Event) {
    match e
    case Recorded(row) => row.createdAt >= w.clock && (w.snapshot.Some? ==> row.createdAt > w.snapshot.value.ts)
    case External(_, _) => true
    case Tick(now) => now >= w.clock
  }

  function Run(w: World, events: seq<Event>): World {
    if events == [] then w
    else Step(Run(w, events[..|events| - 1]), events[|events| - 1])
  }

  ghost predicate TimelyRun(w: World, events: seq<Event>) {
    forall i :: 0 <= i < |events| ==> Timely(Run(w, events[..i]), events[i])
  }

  ghost predicate Balanced(w: World, s: Symbol)
    requires w.snapshot.Some?
  {
    var since := w.snapshot.value;
    Lookup(w.holdings, s) == Lookup(since.quantities, s)
      + QuantitySent(w.rows, since.ts, s, Buy) - QuantitySent(w.rows, since.ts, s, Sell) + Lookup(w.external, s)
  }

  /** Holdings are the snapshot, plus the orders since, plus the outside changes since. */
  ghost predicate Accounted(w: World) {
    (forall i :: 0 <= i < |w.rows| ==> w.rows[i].createdAt <= w.clock)
    && (w.snapshot.Some? ==>
          w.snapshot.value.ts <= w.clock && forall s :: Balanced(w, s))
  }

  lemma StepAccounted(w: World, e: Event)
    requires Accounted(w) && Timely(w, e)
    ensures Accounted(Step(w, e))
  {
    var v := Step(w, e);
    match e {
      case Recorded(row) =>
        assert v.rows[..|w.rows|] == w.rows;
        if w.snapshot.Some? {
          forall s ensures Balanced(v, s) {
            assert Balanced(w, s);
          }
        }
      case External(_, _) =>
        if w.snapshot.Some? {
          forall s ensures Balanced(v, s) {
            assert Balanced(w, s);
          }
        }
      case Tick(now) =>
        forall s ensures Balanced(v, s) {
          NothingSince(v.rows, now, s);
        }
    }
  }

  lemma {:induction false} RunAccounted(w: World, events: seq<Event>)
    requires Accounted(w) && TimelyRun(w, events)
    ensures Accounted(Run(w, events))
  {
    if events != [] {
      var n := |events| - 1;
      forall i | 0 <= i < n ensures Timely(Run(w, events[..n][..i]), events[..n][i]) {
        assert events[..n][..i] == events[..i];
      }
      RunAccounted(w, events[..n]);
      StepAccounted(Run(w, events[..n]), events[n]);
    }
  }

  /**
   * Reconciliation is exact over runs: after any history of recorded orders, outside changes and earlier
   * ticks, a tick with a snapshot reports exactly the symbols whose outside changes since that snapshot do
   * not cancel, each once and in order; orders the system sent are never reported.
   */
  lemma {:induction false} ReportsExactlyExternalChanges(w: World, events: seq<Event>, now: Instant)
    requires Accounted(w) && TimelyRun(w, events) && Timely(Run(w, events), Tick(now))
    requires Run(w, events).snapshot.Some?
    ensures var v := Run(w, events); var after := Step(v, Tick(now));
      StrictlySorted(after.reported) && forall s :: s in after.reported <==> Lookup(v.external, s) != 0.0
  {
    hide Reported, Run;
    RunAccounted(w, events);
    var v := Run(w, events);
    forall s ensures Mismatch(v.snapshot.value.quantities, v.holdings, DeltaOf(v.rows, v.snapshot.value.ts), s)
      <==> Lookup(v.external, s) != 0.0
    {
      assert Balanced(v, s);
      DeltaIsNet(v.rows, v.snapshot.value.ts, s);
    }
  }

  /** An absorbed change is not reported again: a second tick without outside changes in between reports nothing. */
  lemma {:induction false} AbsorbedOnce(w: World, now: Instant, sent: seq<Event>, later: Instant)
    requires Accounted(w) && Timely(w, Tick(now))
    requires forall i :: 0 <= i < |sent| ==> sent[i].Recorded?
    requires var v := Step(w, Tick(now)); TimelyRun(v, sent) && Timely(Run(v, sent), Tick(later))
    ensures Step(Run(Step(w, Tick(now)), sent), Tick(later)).reported == []
  {
    hide Reported, Step;
    var v := Step(w, Tick(now));
    StepAccounted(w, Tick(now));
    TickForgets(w, now);
    OrdersAreNotExternal(v, sent);
    ReportsExactlyExternalChanges(v, sent, later);
    NothingReported(Step(Run(v, sent), Tick(later)).reported);
  }

  lemma NothingReported(r: seq<Symbol>)
    requires forall s :: s !in r
    ensures r == []
  {
    SameEmptiness(r, []);
  }

  lemma TickForgets(w: World, now: Instant)
    ensures var v := Step(w, Tick(now)); v.snapshot.Some? && v.external == map[]
  {
  }

  lemma {:induction false} OrdersAreNotExternal(w: World, sent: seq<Event>)
    requires forall i :: 0 <= i < |sent| ==> sent[i].Recorded?
    ensures Run(w, sent).external == w.external && Run(w, sent).snapshot == w.snapshot
  {
    if sent != [] {
      OrdersAreNotExternal(w, sent[..|sent| - 1]);
    }
  }
}
