/** Deterministic exits: stop loss and time stop, decided without the judge. */
module Exits {
  import opened Prelude
  import opened RealArith
  import opened Sorting
  import opened Paper

  datatype ExitConfig = ExitConfig(stopLossRate: real, timeStopDays: int, enabled: bool)

  /** The loss of a mark against the acquisition cost reaches the stop. */
  predicate StopHit(pos: Position, mark: Option<real>, cfg: ExitConfig)
    requires pos.avgCost > 0.0
  {
    mark.Some? && (mark.value - pos.avgCost) / pos.avgCost <= -cfg.stopLossRate
  }

  /** A position must go: it is really held, and its stop or its time stop is due. */
  predicate MustExit(pos: Position, mark: Option<real>, daysHeld: Option<int>, cfg: ExitConfig) {
    pos.quantity > 0.0 && pos.avgCost > 0.0
    && (StopHit(pos, mark, cfg) || (daysHeld.Some? && daysHeld.value > cfg.timeStopDays))
  }

  function Get<V>(m: map<Symbol, V>, s: Symbol): Option<V> {
    if s in m then Some(m[s]) else None
  }

  predicate Due(positions: map<Symbol, Position>, marks: map<Symbol, real>, daysHeld: map<Symbol, int>, cfg: ExitConfig, s: Symbol) {
    cfg.enabled && s in positions && MustExit(positions[s], Get(marks, s), Get(daysHeld, s), cfg)
  }

  /**
   * Which positions are due, as prices and days: a really held position whose mark has fallen to the stop price or
   * below, or that has been held for more days than allowed; without a mark only the days count.
   */
  lemma DueMeans(positions: map<Symbol, Position>, marks: map<Symbol, real>, daysHeld: map<Symbol, int>, cfg: ExitConfig, s: Symbol)
    ensures Due(positions, marks, daysHeld, cfg, s)
      <==> cfg.enabled && s in positions && positions[s].quantity > 0.0 && positions[s].avgCost > 0.0
           && ((s in marks && marks[s] <= positions[s].avgCost - positions[s].avgCost * cfg.stopLossRate)
               || (s in daysHeld && daysHeld[s] > cfg.timeStopDays))
  {
    if s in positions && s in marks && positions[s].avgCost > 0.0 {
      DivLe(marks[s] - positions[s].avgCost, -cfg.stopLossRate, positions[s].avgCost);
    }
  }

  /** Exactly the due positions are forced out, each once, in symbol order. */
  ghost predicate ForcedExactly(
    forced: seq<Symbol>, positions: map<Symbol, Position>, marks: map<Symbol, real>, daysHeld: map<Symbol, int>, cfg: ExitConfig)
  {
    StrictlySorted(forced) && forall s :: s in forced <==> Due(positions, marks, daysHeld, cfg, s)
  }

  /** The forced exits as a value. */
  function Forced(
    positions: map<Symbol, Position>, marks: map<Symbol, real>, daysHeld: map<Symbol, int>, cfg: ExitConfig): (forced: seq<Symbol>)
    ensures ForcedExactly(forced, positions, marks, daysHeld, cfg)
  {
    Sorted(set s | s in positions && Due(positions, marks, daysHeld, cfg, s))
  }

  lemma AppendSorted(a: seq<int>, x: int)
    requires StrictlySorted(a) && forall y :: y in a ==> y < x
    ensures StrictlySorted(a + [x])
  {
    assert forall j :: 0 <= j < |a| ==> a[j] in a;
  }

  method EvaluateExits(
    positions: map<Symbol, Position>, marks: map<Symbol, real>, daysHeld: map<Symbol, int>, cfg: ExitConfig)
    returns (forced: seq<Symbol>)
    ensures ForcedExactly(forced, positions, marks, daysHeld, cfg)
    ensures forced == Forced(positions, marks, daysHeld, cfg)
  {
    hide StopHit, Sorted, Forced;
    forced := [];
    if !cfg.enabled {
      ForcedIsUnique(forced, Forced(positions, marks, daysHeld, cfg), positions, marks, daysHeld, cfg);
      return;
    }
    var keys := Sorted(positions.Keys);
    for i := 0 to |keys|
      invariant DueAmong(forced, keys[..i], positions, marks, daysHeld, cfg)
    {
      var s := keys[i];
      var pos := positions[s];
      ghost var before := forced;
      if pos.quantity > 0.0 && pos.avgCost > 0.0 {
        if StopHit(pos, Get(marks, s), cfg) {
          forced := forced + [s];
        } else if s in daysHeld && daysHeld[s] > cfg.timeStopDays {
          forced := forced + [s];
        }
      }
      assert forced == before + (if Due(positions, marks, daysHeld, cfg, s) then [s] else []);
      DueAmongStep(before, keys, i, positions, marks, daysHeld, cfg);
    }
    assert keys[..|keys|] == keys;
    ForcedIsUnique(forced, Forced(positions, marks, daysHeld, cfg), positions, marks, daysHeld, cfg);
  }

  ghost predicate DueAmong(
    forced: seq<Symbol>, keys: seq<Symbol>,
    positions: map<Symbol, Position>, marks: map<Symbol, real>, daysHeld: map<Symbol, int>, cfg: ExitConfig)
  {
    StrictlySorted(forced) && forall s :: s in forced <==> s in keys && Due(positions, marks, daysHeld, cfg, s)
  }

  lemma DueAmongStep(
    forced: seq<Symbol>, keys: seq<Symbol>, i: nat,
    positions: map<Symbol, Position>, marks: map<Symbol, real>, daysHeld: map<Symbol, int>, cfg: ExitConfig)
    requires i < |keys| && StrictlySorted(keys) && DueAmong(forced, keys[..i], positions, marks, daysHeld, cfg)
    ensures DueAmong(forced + (if Due(positions, marks, daysHeld, cfg, keys[i]) then [keys[i]] else []),
      keys[..i + 1], positions, marks, daysHeld, cfg)
  {
    hide Due;
    assert keys[..i + 1] == keys[..i] + [keys[i]];
    assert forall y :: y in keys[..i] ==> y < keys[i];
    AppendSorted(forced, keys[i]);
  }

  /** The list is determined: there is only one way to report the due positions. */
  lemma ForcedIsUnique(
    a: seq<Symbol>, b: seq<Symbol>, positions: map<Symbol, Position>, marks: map<Symbol, real>, daysHeld: map<Symbol, int>, cfg: ExitConfig)
    requires ForcedExactly(a, positions, marks, daysHeld, cfg) && ForcedExactly(b, positions, marks, daysHeld, cfg)
    ensures a == b
  {
    SortedUnique(a, b);
  }
}
