/**
 * What a tick does with every candidate, and why each of its orders got the answer it got, in terms of what the
 * tick was given: the screened buys, the holdings, the judge, the gate, the limits.
 */
module TickLaws {
  import opened Prelude
  import opened Orders
  import opened Breaker
  import opened OrderLayer
  import opened Paper
  import opened Allocator
  import opened Pipeline
  import opened PipelineLaws

  // ---------------------------------------------------------------- the orders of a tick, symbol by symbol

  ghost predicate NoOrderFor(orders: seq<OrderResult>, s: Symbol) {
    forall i :: 0 <= i < |orders| ==> orders[i].request.symbol != s
  }

  /** The request was answered, and no other order concerns its symbol. */
  ghost predicate OnlyOrder(orders: seq<OrderResult>, req: OrderRequest) {
    exists k :: 0 <= k < |orders| && OnlyAt(orders, req, k)
  }

  ghost predicate OnlyAt(orders: seq<OrderResult>, req: OrderRequest, k: nat)
    requires k < |orders|
  {
    orders[k].request == req && forall j :: 0 <= j < |orders| && j != k ==> orders[j].request.symbol != req.symbol
  }

  ghost predicate Placed(orders: seq<OrderResult>, req: Option<OrderRequest>, s: Symbol) {
    match req
    case None => NoOrderFor(orders, s)
    case Some(r) => OnlyOrder(orders, r)
  }

  lemma NoOrderAppend(orders: seq<OrderResult>, res: OrderResult, s: Symbol)
    requires NoOrderFor(orders, s) && res.request.symbol != s
    ensures NoOrderFor(orders + [res], s)
  {
  }

  lemma OnlyOrderKept(orders: seq<OrderResult>, res: OrderResult, req: OrderRequest)
    requires OnlyOrder(orders, req) && res.request.symbol != req.symbol
    ensures OnlyOrder(orders + [res], req)
  {
    var k :| 0 <= k < |orders| && OnlyAt(orders, req, k);
    assert OnlyAt(orders + [res], req, k);
  }

  lemma OnlyOrderAdded(orders: seq<OrderResult>, res: OrderResult)
    requires NoOrderFor(orders, res.request.symbol)
    ensures OnlyOrder(orders + [res], res.request)
  {
    assert OnlyAt(orders + [res], res.request, |orders|);
  }

  lemma PlacedKept(orders: seq<OrderResult>, res: OrderResult, req: Option<OrderRequest>, s: Symbol)
    requires Placed(orders, req, s) && res.request.symbol != s && (req.Some? ==> req.value.symbol == s)
    ensures Placed(orders + [res], req, s)
  {
    hide OnlyOrder, NoOrderFor;
    match req {
      case None => NoOrderAppend(orders, res, s);
      case Some(r) => OnlyOrderKept(orders, res, r);
    }
  }

  // ---------------------------------------------------------------- one decision

  predicate Refused(t: TickInput, d: Decision) {
    Find(Candidates(t), d.symbol).Some? && d.action.BuyIt? && !t.gate(d)
  }

  function Made(cfg: GuardrailConfig, t: TickInput, d: Decision, n: nat): Option<OrderRequest> {
    match Find(Candidates(t), d.symbol)
    case None => None
    case Some(ctx) => if Refused(t, d) then None else Allocate(d, ctx, cfg, t.ids(n), t.multiplier)
  }

  lemma MadeFor(cfg: GuardrailConfig, t: TickInput, d: Decision, n: nat)
    ensures Made(cfg, t, d, n).Some? ==> Made(cfg, t, d, n).value.symbol == d.symbol && Made(cfg, t, d, n).value.clientOrderId == t.ids(n)
  {
    hide Allocate, Candidates;
    var found := Find(Candidates(t), d.symbol);
    if found.Some? && Allocate(d, found.value, cfg, t.ids(n), t.multiplier).Some? {
      FindFrom(Candidates(t), d.symbol);
      AllocateShape(d, found.value, cfg, t.ids(n), t.multiplier);
    }
  }

  /** With a new id one decision leads to exactly what it makes: one result for it, or a refusal noted, or nothing. */
  lemma StepMakes(cfg: GuardrailConfig, t: TickInput, base: GuardrailContext, st: LoopState, s: Service, d: Decision, n: nat)
    requires FreshIds(t, s) && IdsUpTo(st.svc, s, t, n)
    ensures var after, made := LoopStep(cfg, t, base, st, d, n), Made(cfg, t, d, n);
      IdsUpTo(after.svc, s, t, n + 1)
      && after.gated == st.gated + (if Refused(t, d) then [d.symbol] else [])
      && (made.None? ==> after.orders == st.orders)
      && (made.Some? ==>
            |after.orders| == |st.orders| + 1 && after.orders[..|st.orders|] == st.orders
            && after.orders[|st.orders|].request == made.value)
  {
    hide Allocate, Candidates, Verdict;
    var found := Find(Candidates(t), d.symbol);
    if found.Some? {
      var proposal := Allocate(d, found.value, cfg, t.ids(n), t.multiplier);
      if proposal.Some? {
        AllocateShape(d, found.value, cfg, t.ids(n), t.multiplier);
        VerdictIsAbout(cfg, st.svc, proposal.value, GuardContext(base, found.value, st.used), t.replies(n));
        VerdictId(cfg, st.svc, proposal.value, GuardContext(base, found.value, st.used), t.replies(n));
        assert t.ids(n) !in st.svc.seen;
      }
    }
  }

  // ---------------------------------------------------------------- the whole loop

  ghost predicate DistinctSymbols(ds: seq<Decision>) {
    forall i, j :: 0 <= i < j < |ds| ==> ds[i].symbol != ds[j].symbol
  }

  ghost predicate DecidedOn(ds: seq<Decision>, s: Symbol) {
    exists k :: 0 <= k < |ds| && ds[k].symbol == s
  }

  ghost predicate Outcome(after: LoopState, cfg: GuardrailConfig, t: TickInput, d: Decision, n: nat) {
    Placed(after.orders, Made(cfg, t, d, n), d.symbol) && multiset(after.gated)[d.symbol] == if Refused(t, d) then 1 else 0
  }

  ghost predicate Untouched(after: LoopState, s: Symbol) {
    NoOrderFor(after.orders, s) && s !in after.gated
  }

  lemma OutcomeKept(cfg: GuardrailConfig, t: TickInput, base: GuardrailContext, st: LoopState, s: Service, d: Decision, n: nat, e: Decision, m: nat)
    requires FreshIds(t, s) && IdsUpTo(st.svc, s, t, n) && Outcome(st, cfg, t, e, m) && e.symbol != d.symbol
    ensures Outcome(LoopStep(cfg, t, base, st, d, n), cfg, t, e, m)
  {
    hide LoopStep, Made, Placed, FreshIds, IdsUpTo, Refused;
    var after := LoopStep(cfg, t, base, st, d, n);
    StepMakes(cfg, t, base, st, s, d, n);
    MadeFor(cfg, t, d, n);
    MadeFor(cfg, t, e, m);
    if Made(cfg, t, d, n).Some? {
      var res := after.orders[|st.orders|];
      assert after.orders == st.orders + [res];
      PlacedKept(st.orders, res, Made(cfg, t, e, m), e.symbol);
    }
  }

  lemma OutcomeNew(cfg: GuardrailConfig, t: TickInput, base: GuardrailContext, st: LoopState, s: Service, d: Decision, n: nat)
    requires FreshIds(t, s) && IdsUpTo(st.svc, s, t, n) && Untouched(st, d.symbol)
    ensures Outcome(LoopStep(cfg, t, base, st, d, n), cfg, t, d, n)
  {
    hide LoopStep, Made, FreshIds, IdsUpTo, Refused, OnlyOrder, NoOrderFor;
    var after := LoopStep(cfg, t, base, st, d, n);
    StepMakes(cfg, t, base, st, s, d, n);
    MadeFor(cfg, t, d, n);
    if Made(cfg, t, d, n).Some? {
      var res := after.orders[|st.orders|];
      assert after.orders == st.orders + [res];
      OnlyOrderAdded(st.orders, res);
    }
  }

  lemma UntouchedKept(cfg: GuardrailConfig, t: TickInput, base: GuardrailContext, st: LoopState, s: Service, d: Decision, n: nat, x: Symbol)
    requires FreshIds(t, s) && IdsUpTo(st.svc, s, t, n) && Untouched(st, x) && x != d.symbol
    ensures Untouched(LoopStep(cfg, t, base, st, d, n), x)
  {
    hide LoopStep, Made, FreshIds, IdsUpTo, Refused, NoOrderFor;
    var after := LoopStep(cfg, t, base, st, d, n);
    StepMakes(cfg, t, base, st, s, d, n);
    MadeFor(cfg, t, d, n);
    if Made(cfg, t, d, n).Some? {
      var res := after.orders[|st.orders|];
      assert after.orders == st.orders + [res];
      NoOrderAppend(st.orders, res, x);
    }
  }

  ghost predicate AllDecided(after: LoopState, cfg: GuardrailConfig, t: TickInput, ds: seq<Decision>) {
    (forall k :: 0 <= k < |ds| ==> Outcome(after, cfg, t, ds[k], k))
    && (forall x :: !DecidedOn(ds, x) ==> Untouched(after, x))
  }

  lemma AllDecidedStep(cfg: GuardrailConfig, t: TickInput, base: GuardrailContext, st: LoopState, s: Service, ds: seq<Decision>)
    requires ds != [] && DistinctSymbols(ds) && FreshIds(t, s) && IdsUpTo(st.svc, s, t, |ds| - 1)
    requires AllDecided(st, cfg, t, ds[..|ds| - 1])
    ensures AllDecided(LoopStep(cfg, t, base, st, ds[|ds| - 1], |ds| - 1), cfg, t, ds)
  {
    hide LoopStep, Outcome, Untouched, FreshIds, IdsUpTo;
    var n, before := |ds| - 1, ds[..|ds| - 1];
    var d := ds[n];
    var after := LoopStep(cfg, t, base, st, d, n);
    forall k | 0 <= k < |ds| ensures Outcome(after, cfg, t, ds[k], k) {
      if k < n {
        assert Outcome(st, cfg, t, before[k], k);
        OutcomeKept(cfg, t, base, st, s, d, n, ds[k], k);
      } else {
        assert !DecidedOn(before, d.symbol);
        OutcomeNew(cfg, t, base, st, s, d, n);
      }
    }
    forall x | !DecidedOn(ds, x) ensures Untouched(after, x) {
      assert !DecidedOn(before, x) by {
        if k :| 0 <= k < |before| && before[k].symbol == x {
          assert ds[k].symbol == x;
        }
      }
      assert ds[n].symbol != x;
      UntouchedKept(cfg, t, base, st, s, d, n, x);
    }
  }

  lemma {:induction false} LoopDecidesAll(
    cfg: GuardrailConfig, t: TickInput, base: GuardrailContext, start: LoopState, s: Service, ds: seq<Decision>)
    requires DistinctSymbols(ds) && FreshIds(t, s) && start.svc.seen == s.seen && start.orders == [] && start.gated == []
    ensures var after := Loop(cfg, t, base, start, ds);
      AllDecided(after, cfg, t, ds) && IdsUpTo(after.svc, s, t, |ds|)
  {
    hide LoopStep, Outcome, Made, FreshIds;
    if ds != [] {
      var n := |ds| - 1;
      LoopDecidesAll(cfg, t, base, start, s, ds[..n]);
      var st := Loop(cfg, t, base, start, ds[..n]);
      StepMakes(cfg, t, base, st, s, ds[n], n);
      AllDecidedStep(cfg, t, base, st, s, ds);
    }
  }

  // ---------------------------------------------------------------- the decisions

  /** Every symbol is offered once, forced symbols are named once, and screened buys come from a watchlist. */
  ghost predicate Orderly(t: TickInput) {
    (forall i, j :: 0 <= i < j < |t.buys| ==> t.buys[i].symbol != t.buys[j].symbol)
    && (forall i, j :: 0 <= i < j < |t.holdings.items| ==> t.holdings.items[i].symbol != t.holdings.items[j].symbol)
    && (forall i, j :: 0 <= i < |t.buys| && 0 <= j < |t.holdings.items| ==> t.buys[i].symbol != t.holdings.items[j].symbol)
    && (forall i, j :: 0 <= i < j < |t.forced| ==> t.forced[i] != t.forced[j])
    && (t.watchlistEmpty ==> t.buys == [])
  }

  lemma OrderlyOnce(t: TickInput)
    requires Orderly(t)
    ensures OncePerSymbol(Candidates(t))
  {
    var cs, n := Candidates(t), |t.buys|;
    forall i | 0 <= i < |cs| ensures cs[i].symbol == if i < n then t.buys[i].symbol else t.holdings.items[i - n].symbol {
    }
  }

  /** A judge is asked about each candidate that is not forced, in order, and about nothing else. */
  function Asked(t: TickInput, cs: seq<CandidateContext>): seq<CandidateContext> {
    if cs == [] then [] else (if cs[0].symbol in t.forced then [] else [cs[0]]) + Asked(t, cs[1..])
  }

  lemma {:induction false} JudgedAreAsked(t: TickInput, cs: seq<CandidateContext>)
    ensures |JudgedDecisions(t, cs)| == |Asked(t, cs)|
    ensures forall k :: 0 <= k < |Asked(t, cs)| ==> JudgedDecisions(t, cs)[k] == Normalize(t.judge(Asked(t, cs)[k]), Asked(t, cs)[k])
  {
    if cs != [] {
      JudgedAreAsked(t, cs[1..]);
    }
  }

  lemma {:induction false} AskedFrom(t: TickInput, cs: seq<CandidateContext>)
    requires OncePerSymbol(cs)
    ensures OncePerSymbol(Asked(t, cs))
    ensures forall c :: c in Asked(t, cs) <==> c in cs && c.symbol !in t.forced
  {
    if cs != [] {
      var rest := Asked(t, cs[1..]);
      AskedFrom(t, cs[1..]);
      forall k | 0 <= k < |rest| ensures rest[k].symbol != cs[0].symbol {
        assert rest[k] in rest;
        var i :| 0 <= i < |cs[1..]| && cs[1..][i] == rest[k];
        assert cs[0].symbol != cs[i + 1].symbol;
      }
      assert cs == [cs[0]] + cs[1..];
    }
  }

  lemma {:induction false} ForcedFrom(forced: seq<Symbol>, cs: seq<CandidateContext>)
    requires forall i, j :: 0 <= i < j < |forced| ==> forced[i] != forced[j]
    ensures DistinctSymbols(ForcedDecisions(forced, cs))
    ensures forall d :: (d in ForcedDecisions(forced, cs)
                         <==> d.symbol in forced && Find(cs, d.symbol).Some? && d.action == SellIt && d.confidence == 1.0)
  {
    if forced != [] {
      var rest := ForcedDecisions(forced[1..], cs);
      ForcedFrom(forced[1..], cs);
      forall k | 0 <= k < |rest| ensures rest[k].symbol != forced[0] {
        assert rest[k] in rest;
        var i :| 0 <= i < |forced[1..]| && forced[1..][i] == rest[k].symbol;
        assert forced[0] != forced[i + 1];
      }
      assert forced == [forced[0]] + forced[1..];
    }
  }

  lemma DecisionsDistinct(t: TickInput)
    requires Orderly(t)
    ensures DistinctSymbols(Decisions(t))
  {
    hide Candidates, ForcedDecisions, JudgedDecisions, Asked;
    OrderlyOnce(t);
    var cs := Candidates(t);
    var f, j := ForcedDecisions(t.forced, cs), JudgedDecisions(t, cs);
    ForcedFrom(t.forced, cs);
    JudgedAreAsked(t, cs);
    AskedFrom(t, cs);
    forall k | 0 <= k < |f| ensures f[k].symbol in t.forced {
      assert f[k] in f;
    }
    forall k | 0 <= k < |j| ensures j[k].symbol !in t.forced && j[k].symbol == Asked(t, cs)[k].symbol {
      assert Asked(t, cs)[k] in Asked(t, cs);
    }
  }

  lemma ForcedIsDecided(t: TickInput, f: Symbol) returns (k: nat)
    requires Orderly(t) && f in t.forced && Find(Candidates(t), f).Some?
    ensures k < |Decisions(t)| && Decisions(t)[k] == Decision(SellIt, f, 1.0)
  {
    hide Candidates, ForcedDecisions, JudgedDecisions;
    ForcedFrom(t.forced, Candidates(t));
    var fs := ForcedDecisions(t.forced, Candidates(t));
    assert Decision(SellIt, f, 1.0) in fs;
    k :| 0 <= k < |fs| && fs[k] == Decision(SellIt, f, 1.0);
  }

  lemma CandidateIsDecided(t: TickInput, i: nat) returns (k: nat)
    requires Orderly(t) && i < |Candidates(t)| && Candidates(t)[i].symbol !in t.forced
    ensures k < |Decisions(t)| && Decisions(t)[k] == Normalize(t.judge(Candidates(t)[i]), Candidates(t)[i])
  {
    hide ForcedDecisions, JudgedDecisions, Asked, Normalize;
    OrderlyOnce(t);
    var cs := Candidates(t);
    JudgedAreAsked(t, cs);
    AskedFrom(t, cs);
    assert cs[i] in Asked(t, cs);
    var m :| 0 <= m < |Asked(t, cs)| && Asked(t, cs)[m] == cs[i];
    k := |ForcedDecisions(t.forced, cs)| + m;
  }

  lemma DecidedIsOffered(t: TickInput, s: Symbol)
    requires Orderly(t) && DecidedOn(Decisions(t), s)
    ensures Find(Candidates(t), s).Some?
  {
    hide Candidates, ForcedDecisions, JudgedDecisions, Asked;
    OrderlyOnce(t);
    var cs := Candidates(t);
    var f, j := ForcedDecisions(t.forced, cs), JudgedDecisions(t, cs);
    ForcedFrom(t.forced, cs);
    JudgedAreAsked(t, cs);
    AskedFrom(t, cs);
    var k :| 0 <= k < |Decisions(t)| && Decisions(t)[k].symbol == s;
    if k < |f| {
      assert f[k] in f;
    } else {
      var c := Asked(t, cs)[k - |f|];
      assert c in Asked(t, cs);
      var i :| 0 <= i < |cs| && cs[i] == c;
      FindHit(cs, i);
    }
  }

  // ---------------------------------------------------------------- the laws

  /** A confidence made safe. */
  function Clamped(c: real): real {
    if c < 0.0 then 0.0 else if c > 1.0 then 1.0 else c
  }

  /** What becomes of a safe decision: a refused buy is noted once, anything else is sized and, if an order results, placed once. */
  ghost predicate Followed(cfg: GuardrailConfig, t: TickInput, after: LoopState, ctx: CandidateContext, d: Decision) {
    if d.action.BuyIt? && !t.gate(d) then NoOrderFor(after.orders, ctx.symbol) && multiset(after.gated)[ctx.symbol] == 1
    else
      ctx.symbol !in after.gated
      && exists n: nat :: Placed(after.orders, Allocate(d, ctx, cfg, t.ids(n), t.multiplier), ctx.symbol)
  }

  lemma RunDecidesAll(cfg: GuardrailConfig, bcfg: BreakerConfig, s: Service, t: TickInput)
    requires Orderly(t) && FreshIds(t, s) && (t.buys != [] || t.holdings.items != [])
    ensures AllDecided(RunTickSpec(cfg, bcfg, s, t), cfg, t, Decisions(t))
  {
    hide AssessSpec, Loop, Decisions, AllDecided, FreshIds, Candidates;
    DecisionsDistinct(t);
    var assessed := s.(breaker := AssessSpec(bcfg, s.breaker, Equity(t), t.holdings.dailyPlRate, DayOf(t.now)));
    LoopDecidesAll(cfg, t, BaseContext(t, s.killSwitch), LoopState(assessed, [], [], t.dailyUsed), s, Decisions(t));
  }

  lemma DecisionFollowed(cfg: GuardrailConfig, bcfg: BreakerConfig, s: Service, t: TickInput, i: nat, k: nat, d: Decision)
    requires Orderly(t) && FreshIds(t, s) && i < |Candidates(t)|
    requires k < |Decisions(t)| && Decisions(t)[k] == d && d.symbol == Candidates(t)[i].symbol
    ensures Followed(cfg, t, RunTickSpec(cfg, bcfg, s, t), Candidates(t)[i], d)
  {
    hide RunTickSpec, Decisions, OnlyOrder, NoOrderFor, FreshIds, Allocate, Candidates;
    OrderlyOnce(t);
    FindHit(Candidates(t), i);
    RunDecidesAll(cfg, bcfg, s, t);
    var after := RunTickSpec(cfg, bcfg, s, t);
    assert Outcome(after, cfg, t, d, k);
    var ctx := Candidates(t)[i];
    if !(d.action.BuyIt? && !t.gate(d)) {
      assert Made(cfg, t, d, k) == Allocate(d, ctx, cfg, t.ids(k), t.multiplier);
      assert Placed(after.orders, Allocate(d, ctx, cfg, t.ids(k), t.multiplier), ctx.symbol);
      assert multiset(after.gated)[ctx.symbol] == 0;
    }
  }

  /**
   * Every screened buy that is not forced is put to the judge, and what comes of its answer is what the answer says: a
   * buy the gate refuses is noted, a buy it passes is ordered if at least one share fits, and nothing else is ordered.
   */
  lemma {:induction false} ScreenedBuyIsJudged(cfg: GuardrailConfig, bcfg: BreakerConfig, s: Service, t: TickInput, i: nat)
    requires Orderly(t) && FreshIds(t, s) && i < |t.buys| && t.buys[i].symbol !in t.forced
    ensures var b := t.buys[i];
      var ctx := CandidateContext(b.symbol, Some(b.lastClose), false, None, Some(t.holdings.marketValue), t.cash);
      var answer := t.judge(ctx);
      Followed(cfg, t, RunTickSpec(cfg, bcfg, s, t), ctx,
               Decision(if answer.action == SellIt then Hold else answer.action, b.symbol, Clamped(answer.confidence)))
  {
    hide RunTickSpec, Decisions, Followed, FreshIds;
    var k := CandidateIsDecided(t, i);
    DecisionFollowed(cfg, bcfg, s, t, i, k, Decisions(t)[k]);
  }

  /** Every position that is not forced is put to the judge with its full quantity and its last close, if it has one. */
  lemma {:induction false} HeldPositionIsJudged(cfg: GuardrailConfig, bcfg: BreakerConfig, s: Service, t: TickInput, i: nat)
    requires Orderly(t) && FreshIds(t, s) && i < |t.holdings.items| && t.holdings.items[i].symbol !in t.forced
    ensures var item := t.holdings.items[i];
      var close := if item.symbol in t.closes then Some(t.closes[item.symbol]) else None;
      var ctx := CandidateContext(item.symbol, close, true, Some(item.quantity), Some(t.holdings.marketValue), t.cash);
      var answer := t.judge(ctx);
      Followed(cfg, t, RunTickSpec(cfg, bcfg, s, t), ctx, Decision(answer.action, item.symbol, Clamped(answer.confidence)))
  {
    hide RunTickSpec, Decisions, Followed, FreshIds;
    assert Candidates(t)[|t.buys| + i] == HeldCandidate(t.holdings.items[i], t);
    var k := CandidateIsDecided(t, |t.buys| + i);
    DecisionFollowed(cfg, bcfg, s, t, |t.buys| + i, k, Decisions(t)[k]);
  }

  /** A forced position is sold without asking the judge. */
  lemma {:induction false} ForcedPositionIsSold(cfg: GuardrailConfig, bcfg: BreakerConfig, s: Service, t: TickInput, i: nat)
    requires Orderly(t) && FreshIds(t, s) && i < |t.holdings.items| && t.holdings.items[i].symbol in t.forced
    ensures var item := t.holdings.items[i];
      var close := if item.symbol in t.closes then Some(t.closes[item.symbol]) else None;
      var ctx := CandidateContext(item.symbol, close, true, Some(item.quantity), Some(t.holdings.marketValue), t.cash);
      Followed(cfg, t, RunTickSpec(cfg, bcfg, s, t), ctx, Decision(SellIt, item.symbol, 1.0))
  {
    hide RunTickSpec, Decisions, Followed, FreshIds;
    OrderlyOnce(t);
    assert Candidates(t)[|t.buys| + i] == HeldCandidate(t.holdings.items[i], t);
    FindHit(Candidates(t), |t.buys| + i);
    var k := ForcedIsDecided(t, t.holdings.items[i].symbol);
    DecisionFollowed(cfg, bcfg, s, t, |t.buys| + i, k, Decisions(t)[k]);
  }

  /** No order and no refusal concerns a symbol that was neither screened nor held. */
  lemma {:induction false} NothingElseIsOrdered(cfg: GuardrailConfig, bcfg: BreakerConfig, s: Service, t: TickInput, x: Symbol)
    requires Orderly(t) && FreshIds(t, s)
    requires forall i :: 0 <= i < |t.buys| ==> t.buys[i].symbol != x
    requires forall i :: 0 <= i < |t.holdings.items| ==> t.holdings.items[i].symbol != x
    ensures var after := RunTickSpec(cfg, bcfg, s, t); NoOrderFor(after.orders, x) && x !in after.gated
  {
    hide AssessSpec, Decisions, FreshIds, Loop, DecidedOn;
    if t.buys == [] && t.holdings.items == [] {
      NothingOffered(cfg, bcfg, s, t);
    } else {
      RunDecidesAll(cfg, bcfg, s, t);
      if DecidedOn(Decisions(t), x) {
        DecidedIsOffered(t, x);
        OfferedIsGiven(t, x);
      }
    }
  }

  lemma OfferedIsGiven(t: TickInput, x: Symbol)
    requires Find(Candidates(t), x).Some?
    ensures (exists i :: 0 <= i < |t.buys| && t.buys[i].symbol == x)
            || (exists i :: 0 <= i < |t.holdings.items| && t.holdings.items[i].symbol == x)
  {
    FindFrom(Candidates(t), x);
    var i :| 0 <= i < |Candidates(t)| && Candidates(t)[i] == Find(Candidates(t), x).value;
    if i < |t.buys| {
      assert t.buys[i].symbol == x;
    } else {
      assert t.holdings.items[i - |t.buys|].symbol == x;
    }
  }

  lemma NothingOffered(cfg: GuardrailConfig, bcfg: BreakerConfig, s: Service, t: TickInput)
    requires Orderly(t) && t.buys == [] && t.holdings.items == []
    ensures RunTickSpec(cfg, bcfg, s, t).orders == [] && RunTickSpec(cfg, bcfg, s, t).gated == []
  {
    hide AssessSpec;
    assert Candidates(t) == [];
    NoneForced(t.forced);
    assert JudgedDecisions(t, []) == [];
    assert Decisions(t) == [];
  }

  lemma {:induction false} NoneForced(forced: seq<Symbol>)
    ensures ForcedDecisions(forced, []) == []
  {
    if forced != [] {
      NoneForced(forced[1..]);
    }
  }

  /**
   * From the judge's yes to the order: a screened buy the judge wants, the gate passes and the budget can pay at least
   * one share of is ordered exactly once, as the largest whole number of shares the budget pays at the last close.
   */
  lemma {:induction false} WantedBuyIsOrdered(
    cfg: GuardrailConfig, bcfg: BreakerConfig, s: Service, t: TickInput, i: nat, limit: real)
    requires Orderly(t) && FreshIds(t, s) && i < |t.buys| && t.buys[i].symbol !in t.forced && t.buys[i].lastClose > 0.0
    requires var b := t.buys[i];
      var ctx := CandidateContext(b.symbol, Some(b.lastClose), false, None, Some(t.holdings.marketValue), t.cash);
      var confidence := Clamped(t.judge(ctx).confidence);
      t.judge(ctx).action == BuyIt && t.gate(Decision(BuyIt, b.symbol, confidence))
      && LeastLimit(ctx, cfg, b.lastClose, limit) && limit > 0.0 && Budget(limit, confidence, t.multiplier) >= b.lastClose
    ensures var b := t.buys[i]; var after := RunTickSpec(cfg, bcfg, s, t);
      var ctx := CandidateContext(b.symbol, Some(b.lastClose), false, None, Some(t.holdings.marketValue), t.cash);
      var budget := Budget(limit, Clamped(t.judge(ctx).confidence), t.multiplier);
      b.symbol !in after.gated
      && exists req :: OnlyOrder(after.orders, req)
                       && req.side == Buy && req.symbol == b.symbol && req.price == Some(b.lastClose) && req.orderAmount == None
                       && req.quantity.Some? && req.quantity.value == req.quantity.value.Floor as real
                       && req.quantity.value * b.lastClose <= budget < req.quantity.value * b.lastClose + b.lastClose
  {
    hide RunTickSpec, FreshIds, Allocate, LeastLimit, Budget, OnlyOrder;
    ScreenedBuyIsJudged(cfg, bcfg, s, t, i);
    var b, after := t.buys[i], RunTickSpec(cfg, bcfg, s, t);
    var ctx := CandidateContext(b.symbol, Some(b.lastClose), false, None, Some(t.holdings.marketValue), t.cash);
    var d := Decision(BuyIt, b.symbol, Clamped(t.judge(ctx).confidence));
    var n: nat :| Placed(after.orders, Allocate(d, ctx, cfg, t.ids(n), t.multiplier), b.symbol);
    SizedToTheShare(d, ctx, cfg, t.ids(n), t.multiplier, b.lastClose, limit);
    assert OnlyOrder(after.orders, Allocate(d, ctx, cfg, t.ids(n), t.multiplier).value);
  }

  /** A buy the gate refuses is noted exactly once, and not ordered. */
  lemma {:induction false} RefusedBuyIsNoted(cfg: GuardrailConfig, bcfg: BreakerConfig, s: Service, t: TickInput, i: nat)
    requires Orderly(t) && FreshIds(t, s) && i < |t.buys| && t.buys[i].symbol !in t.forced
    requires var b := t.buys[i];
      var ctx := CandidateContext(b.symbol, Some(b.lastClose), false, None, Some(t.holdings.marketValue), t.cash);
      t.judge(ctx).action == BuyIt && !t.gate(Decision(BuyIt, b.symbol, Clamped(t.judge(ctx).confidence)))
    ensures var after := RunTickSpec(cfg, bcfg, s, t);
      multiset(after.gated)[t.buys[i].symbol] == 1 && NoOrderFor(after.orders, t.buys[i].symbol)
  {
    hide RunTickSpec, FreshIds;
    ScreenedBuyIsJudged(cfg, bcfg, s, t, i);
  }

  /** A position with a positive last close that is forced out, or that the judge wants sold, is sold whole by exactly one order. */
  lemma {:induction false} UnwantedPositionIsSold(cfg: GuardrailConfig, bcfg: BreakerConfig, s: Service, t: TickInput, i: nat)
    requires Orderly(t) && FreshIds(t, s) && i < |t.holdings.items|
    requires var item := t.holdings.items[i];
      item.quantity > 0.0 && item.symbol in t.closes && t.closes[item.symbol] > 0.0
      && (item.symbol in t.forced
          || t.judge(CandidateContext(item.symbol, Some(t.closes[item.symbol]), true, Some(item.quantity),
                                      Some(t.holdings.marketValue), t.cash)).action == SellIt)
    ensures var item := t.holdings.items[i]; var after := RunTickSpec(cfg, bcfg, s, t);
      item.symbol !in after.gated
      && exists req :: OnlyOrder(after.orders, req)
                       && req.side == Sell && req.symbol == item.symbol && req.quantity == Some(item.quantity)
                       && req.price == Some(t.closes[item.symbol])
  {
    hide RunTickSpec, FreshIds, Allocate, OnlyOrder;
    var item, after := t.holdings.items[i], RunTickSpec(cfg, bcfg, s, t);
    var ctx := CandidateContext(item.symbol, Some(t.closes[item.symbol]), true, Some(item.quantity), Some(t.holdings.marketValue), t.cash);
    var d: Decision;
    if item.symbol in t.forced {
      d := Decision(SellIt, item.symbol, 1.0);
      ForcedPositionIsSold(cfg, bcfg, s, t, i);
    } else {
      d := Decision(SellIt, item.symbol, Clamped(t.judge(ctx).confidence));
      HeldPositionIsJudged(cfg, bcfg, s, t, i);
    }
    var n: nat :| Placed(after.orders, Allocate(d, ctx, cfg, t.ids(n), t.multiplier), item.symbol);
    SellsWhole(d, ctx, cfg, t.ids(n), t.multiplier);
    assert OnlyOrder(after.orders, Allocate(d, ctx, cfg, t.ids(n), t.multiplier).value);
  }

  /** What the judge holds on to is neither bought nor sold. */
  lemma {:induction false} HeldOnIsLeftAlone(cfg: GuardrailConfig, bcfg: BreakerConfig, s: Service, t: TickInput, i: nat)
    requires Orderly(t) && FreshIds(t, s) && i < |t.holdings.items| && t.holdings.items[i].symbol !in t.forced
    requires var item := t.holdings.items[i];
      var close := if item.symbol in t.closes then Some(t.closes[item.symbol]) else None;
      t.judge(CandidateContext(item.symbol, close, true, Some(item.quantity), Some(t.holdings.marketValue), t.cash)).action == Hold
    ensures NoOrderFor(RunTickSpec(cfg, bcfg, s, t).orders, t.holdings.items[i].symbol)
  {
    hide RunTickSpec, FreshIds, Allocate, NoOrderFor;
    HeldPositionIsJudged(cfg, bcfg, s, t, i);
    var item, after := t.holdings.items[i], RunTickSpec(cfg, bcfg, s, t);
    var close := if item.symbol in t.closes then Some(t.closes[item.symbol]) else None;
    var ctx := CandidateContext(item.symbol, close, true, Some(item.quantity), Some(t.holdings.marketValue), t.cash);
    var d := Decision(Hold, item.symbol, Clamped(t.judge(ctx).confidence));
    var n: nat :| Placed(after.orders, Allocate(d, ctx, cfg, t.ids(n), t.multiplier), item.symbol);
    NoPriceNoOrder(d, ctx, cfg, t.ids(n), t.multiplier);
  }

  // ---------------------------------------------------------------- the order of the orders

  /** Forced exits first, then the screened buys, then the holdings. */
  function Agenda(t: TickInput): seq<Symbol> {
    t.forced
    + seq(|t.buys|, i requires 0 <= i < |t.buys| => t.buys[i].symbol)
    + seq(|t.holdings.items|, i requires 0 <= i < |t.holdings.items| => t.holdings.items[i].symbol)
  }

  /** Where a symbol first stands on a list. */
  function Turn(symbols: seq<Symbol>, s: Symbol): (k: nat)
    ensures k <= |symbols| && (forall i :: 0 <= i < k ==> symbols[i] != s) && (k < |symbols| ==> symbols[k] == s)
  {
    if symbols == [] then 0
    else if symbols[0] == s then 0
    else 1 + Turn(symbols[1..], s)
  }

  ghost predicate InTurn(symbols: seq<Symbol>, orders: seq<OrderResult>) {
    forall i, j :: 0 <= i < j < |orders| ==> Turn(symbols, orders[i].request.symbol) < Turn(symbols, orders[j].request.symbol)
  }

  ghost predicate DecidedInTurn(symbols: seq<Symbol>, ds: seq<Decision>) {
    forall i, j :: 0 <= i < j < |ds| ==> Turn(symbols, ds[i].symbol) < Turn(symbols, ds[j].symbol)
  }

  ghost predicate BeforeTurn(symbols: seq<Symbol>, orders: seq<OrderResult>, k: int) {
    forall i :: 0 <= i < |orders| ==> Turn(symbols, orders[i].request.symbol) < k
  }

  lemma {:induction false} LoopInTurn(
    cfg: GuardrailConfig, t: TickInput, base: GuardrailContext, start: LoopState, s: Service, symbols: seq<Symbol>, ds: seq<Decision>)
    requires DecidedInTurn(symbols, ds) && FreshIds(t, s) && start.svc.seen == s.seen && start.orders == []
    ensures var after := Loop(cfg, t, base, start, ds);
      IdsUpTo(after.svc, s, t, |ds|) && InTurn(symbols, after.orders)
      && (ds != [] ==> BeforeTurn(symbols, after.orders, Turn(symbols, ds[|ds| - 1].symbol) + 1))
      && (ds == [] ==> after.orders == [])
  {
    hide LoopStep, FreshIds, Turn;
    if ds != [] {
      var n := |ds| - 1;
      LoopInTurn(cfg, t, base, start, s, symbols, ds[..n]);
      var st := Loop(cfg, t, base, start, ds[..n]);
      StepMakes(cfg, t, base, st, s, ds[n], n);
      MadeFor(cfg, t, ds[n], n);
      if n > 0 {
        assert Turn(symbols, ds[n - 1].symbol) < Turn(symbols, ds[n].symbol);
      }
      assert BeforeTurn(symbols, st.orders, Turn(symbols, ds[n].symbol));
    }
  }

  lemma TurnIs(symbols: seq<Symbol>, k: nat)
    requires k < |symbols| && forall i :: 0 <= i < k ==> symbols[i] != symbols[k]
    ensures Turn(symbols, symbols[k]) == k
  {
  }

  ghost predicate AskedInTurn(symbols: seq<Symbol>, cs: seq<CandidateContext>, first: int) {
    (forall i, j :: 0 <= i < j < |cs| ==> Turn(symbols, cs[i].symbol) < Turn(symbols, cs[j].symbol))
    && forall i :: 0 <= i < |cs| ==> first <= Turn(symbols, cs[i].symbol)
  }

  lemma {:induction false} AskingInTurn(t: TickInput, cs: seq<CandidateContext>, symbols: seq<Symbol>, first: int)
    requires forall i :: 0 <= i < |cs| && cs[i].symbol !in t.forced ==> Turn(symbols, cs[i].symbol) == first + i
    ensures AskedInTurn(symbols, Asked(t, cs), first)
  {
    hide Turn;
    if cs != [] {
      forall i | 0 <= i < |cs[1..]| && cs[1..][i].symbol !in t.forced ensures Turn(symbols, cs[1..][i].symbol) == first + 1 + i {
        assert cs[1..][i] == cs[i + 1];
      }
      AskingInTurn(t, cs[1..], symbols, first + 1);
    }
  }

  ghost predicate Within(symbols: seq<Symbol>, ds: seq<Decision>, first: int, last: int) {
    forall i :: 0 <= i < |ds| ==> first <= Turn(symbols, ds[i].symbol) < last
  }

  lemma {:induction false} ForcingInTurn(forced: seq<Symbol>, cs: seq<CandidateContext>, symbols: seq<Symbol>, first: int)
    requires forall i :: 0 <= i < |forced| ==> Turn(symbols, forced[i]) == first + i
    ensures DecidedInTurn(symbols, ForcedDecisions(forced, cs)) && Within(symbols, ForcedDecisions(forced, cs), first, first + |forced|)
  {
    hide Turn, Find, DecidedInTurn, Within;
    if forced == [] {
      NoneInTurn(symbols, first);
    } else {
      forall i | 0 <= i < |forced[1..]| ensures Turn(symbols, forced[1..][i]) == first + 1 + i {
        assert forced[1..][i] == forced[i + 1];
      }
      var rest := ForcedDecisions(forced[1..], cs);
      ForcingInTurn(forced[1..], cs, symbols, first + 1);
      assert first + 1 + |forced[1..]| == first + |forced|;
      assert Turn(symbols, forced[0]) == first;
      EarlierFirst(symbols, Decision(SellIt, forced[0], 1.0), rest, first, first + |forced|);
      assert ForcedDecisions(forced, cs) == [Decision(SellIt, forced[0], 1.0)] + rest || ForcedDecisions(forced, cs) == rest;
    }
  }

  lemma NoneInTurn(symbols: seq<Symbol>, first: int)
    ensures DecidedInTurn(symbols, []) && Within(symbols, [], first, first)
  {
  }

  lemma EarlierFirst(symbols: seq<Symbol>, d: Decision, rest: seq<Decision>, first: int, last: int)
    requires DecidedInTurn(symbols, rest) && Within(symbols, rest, first + 1, last) && Turn(symbols, d.symbol) == first < last
    ensures DecidedInTurn(symbols, [d] + rest) && Within(symbols, [d] + rest, first, last) && Within(symbols, rest, first, last)
  {
    hide Turn;
  }

  lemma AgendaTurns(t: TickInput)
    requires Orderly(t)
    ensures forall i :: 0 <= i < |t.forced| ==> Turn(Agenda(t), t.forced[i]) == i
    ensures forall i :: 0 <= i < |Candidates(t)| && Candidates(t)[i].symbol !in t.forced ==>
      Turn(Agenda(t), Candidates(t)[i].symbol) == |t.forced| + i
  {
    hide Turn;
    OrderlyOnce(t);
    var agenda, cs := Agenda(t), Candidates(t);
    forall i | 0 <= i < |t.forced| ensures Turn(agenda, t.forced[i]) == i {
      assert agenda[i] == t.forced[i];
      TurnIs(agenda, i);
    }
    forall i | 0 <= i < |cs| ensures agenda[|t.forced| + i] == cs[i].symbol {
    }
    forall i | 0 <= i < |cs| && cs[i].symbol !in t.forced ensures Turn(agenda, cs[i].symbol) == |t.forced| + i {
      forall k | 0 <= k < |t.forced| + i ensures agenda[k] != cs[i].symbol {
        if k >= |t.forced| {
          assert agenda[k] == cs[k - |t.forced|].symbol;
        }
      }
      TurnIs(agenda, |t.forced| + i);
    }
  }

  lemma DecisionsInTurn(t: TickInput)
    requires Orderly(t)
    ensures DecidedInTurn(Agenda(t), Decisions(t))
  {
    hide Turn, Candidates, ForcedDecisions, JudgedDecisions, Asked, Agenda, Orderly;
    var agenda, cs := Agenda(t), Candidates(t);
    AgendaTurns(t);
    ForcingInTurn(t.forced, cs, agenda, 0);
    AskingInTurn(t, cs, agenda, |t.forced|);
    JudgedAreAsked(t, cs);
    var j := JudgedDecisions(t, cs);
    forall k | 0 <= k < |j| ensures j[k].symbol == Asked(t, cs)[k].symbol {
    }
  }

  /** The orders of a tick stand in the order of its agenda: forced exits first, then screened buys, then holdings. */
  lemma {:induction false} OrdersInTurn(cfg: GuardrailConfig, bcfg: BreakerConfig, s: Service, t: TickInput)
    requires Orderly(t) && FreshIds(t, s)
    ensures InTurn(Agenda(t), RunTickSpec(cfg, bcfg, s, t).orders)
  {
    hide AssessSpec, Decisions, FreshIds, Loop, Turn, Agenda;
    if !(t.watchlistEmpty && t.holdings.items == []) {
      DecisionsInTurn(t);
      var assessed := s.(breaker := AssessSpec(bcfg, s.breaker, Equity(t), t.holdings.dailyPlRate, DayOf(t.now)));
      LoopInTurn(cfg, t, BaseContext(t, s.killSwitch), LoopState(assessed, [], [], t.dailyUsed), s, Agenda(t), Decisions(t));
    }
  }

  // ---------------------------------------------------------------- why an order got its answer

  /** What the tick knows at its start. */
  datatype Before = Before(killSwitch: bool, mode: TradingMode, hasExecutor: bool, breaker: BreakerState)

  /**
   * The answer to order k of a tick, from what was given and from the orders before it: it is rejected for the kill
   * switch or a closed market, and a buy also while the breaker stops buys, beyond what the day's cap leaves after the
   * buys accepted so far, and for a new symbol when the position limit was reached at the start of the tick.
   */
  ghost predicate RightlyAnswered(cfg: GuardrailConfig, t: TickInput, was: Before, orders: seq<OrderResult>, k: nat)
    requires k < |orders|
  {
    var o := orders[k];
    var money := o.request.quantity.GetOr(0.0) * o.request.price.GetOr(0.0);
    var held := exists i :: 0 <= i < |t.holdings.items| && t.holdings.items[i].symbol == o.request.symbol;
    var stopped := was.breaker.drawdownHalt || (was.breaker.dailyHaltDate.Some? && was.breaker.dailyHaltDate == was.breaker.today);
    (o.status == Rejected <==>
       was.killSwitch || !MarketIsOpen(t.now, cfg)
       || (o.request.side == Buy
           && (stopped
               || t.dailyUsed + Spent(orders[..k]) + money > cfg.dailyBuyCap
               || (!held && |t.holdings.items| >= cfg.maxPositions))))
    && (o.status != Rejected && was.mode == DryRunMode ==> o.status == DryRun)
    && (o.status != Rejected && was.mode == LiveMode && !was.hasExecutor ==> o.status == Failed)
    && (o.status != Rejected && was.mode == LiveMode && was.hasExecutor ==> o.status in {Submitted, Failed})
    && o.mode == was.mode
  }

  ghost predicate AllRightlyAnswered(cfg: GuardrailConfig, t: TickInput, was: Before, orders: seq<OrderResult>) {
    forall k :: 0 <= k < |orders| ==> RightlyAnswered(cfg, t, was, orders, k)
  }

  lemma HeldSymbolsAreItems(h: Holdings, s: Symbol)
    ensures s in HeldSymbols(h) <==> exists i :: 0 <= i < |h.items| && h.items[i].symbol == s
  {
    if i :| 0 <= i < |h.items| && h.items[i].symbol == s {
      assert h.items[i] in h.items;
    }
  }

  /** The guards on an order sized by the tick itself, in a context made by the tick. */
  lemma SizedOrderPasses(
    cfg: GuardrailConfig, t: TickInput, base: GuardrailContext, ctx: CandidateContext, d: Decision, id: OrderId, used: real,
    svcKill: bool, tripped: bool)
    requires cfg.perSymbolMaxWeight >= 0.0 && 0.0 <= d.confidence <= 1.0 && ContextOfTick(ctx, t)
    requires base == BaseContext(t, base.killSwitch) && Allocate(d, ctx, cfg, id, t.multiplier).Some?
    ensures var req := Allocate(d, ctx, cfg, id, t.multiplier).value;
      var money := req.quantity.GetOr(0.0) * req.price.GetOr(0.0);
      RunGuardrails(req, EffectiveContext(GuardContext(base, ctx, used), svcKill, tripped), cfg) == []
      <==> !base.killSwitch && !svcKill && MarketIsOpen(t.now, cfg)
           && (req.side == Buy ==>
                 !tripped && used + money <= cfg.dailyBuyCap
                 && (req.symbol in HeldSymbols(t.holdings) || |t.holdings.items| < cfg.maxPositions))
  {
    hide Allocate, RunGuardrails, MarketIsOpen, GuardPerOrderMax, GuardPerSymbolWeight, OrderRequest.EstimatedNotional, HeldSymbols;
    AllocateShape(d, ctx, cfg, id, t.multiplier);
    var req := Allocate(d, ctx, cfg, id, t.multiplier).value;
    var gctx := GuardContext(base, ctx, used);
    var eff := EffectiveContext(gctx, svcKill, tripped);
    if req.side == Buy {
      ProposalPassesSizingGuards(cfg, t, base, ctx, d, id, used);
      SizingGuardsIgnoreSwitches(cfg, req, gctx, eff);
      SizedBuyPasses(cfg, req, eff);
    } else {
      SellStoppedOnlyBy(req, eff, cfg);
    }
  }

  lemma SizedBuyPasses(cfg: GuardrailConfig, req: OrderRequest, eff: GuardrailContext)
    requires req.side == Buy && req.orderAmount.None? && req.quantity.Some? && req.price.Some?
    requires GuardPerOrderMax(req, eff, cfg) == None && GuardPerSymbolWeight(req, eff, cfg) == None
    ensures RunGuardrails(req, eff, cfg) == []
      <==> !eff.killSwitch && !eff.circuitBreakerHalt && MarketIsOpen(eff.now, cfg)
           && eff.dailyBuyUsed + req.quantity.value * req.price.value <= cfg.dailyBuyCap
           && (req.symbol in eff.heldSymbols || eff.openPositions < cfg.maxPositions)
  {
    hide GuardPerSymbolWeight, OrderRequest.EstimatedNotional;
    EstimateIsCost(req, req.quantity.value * req.price.value);
  }

  lemma ViolationsAreGuards(cfg: GuardrailConfig, svc: Service, order: OrderRequest, ctx: GuardrailContext, reply: Reply)
    requires order.clientOrderId !in svc.seen
    ensures SubmitSpec(cfg, svc, order, ctx, reply).1.violations
      == RunGuardrails(order, EffectiveContext(ctx, svc.killSwitch, svc.breaker.Tripped()), cfg)
  {
    hide RunGuardrails;
  }

  lemma RightlyAnsweredKept(cfg: GuardrailConfig, t: TickInput, was: Before, orders: seq<OrderResult>, res: OrderResult, k: nat)
    requires k < |orders| && RightlyAnswered(cfg, t, was, orders, k)
    ensures RightlyAnswered(cfg, t, was, orders + [res], k)
  {
    hide MarketIsOpen, Spent;
    assert (orders + [res])[..k] == orders[..k];
  }

  ghost predicate StillAs(was: Before, svc: Service) {
    svc.killSwitch == was.killSwitch && svc.mode == was.mode && svc.hasExecutor == was.hasExecutor && svc.breaker == was.breaker
  }

  lemma SubmitAnswers(
    cfg: GuardrailConfig, t: TickInput, was: Before, base: GuardrailContext, st: LoopState, ctx: CandidateContext, d: Decision, n: nat)
    requires cfg.perSymbolMaxWeight >= 0.0 && 0.0 <= d.confidence <= 1.0 && ContextOfTick(ctx, t)
    requires base == BaseContext(t, was.killSwitch) && StillAs(was, st.svc) && st.used == t.dailyUsed + Spent(st.orders)
    requires Allocate(d, ctx, cfg, t.ids(n), t.multiplier).Some? && t.ids(n) !in st.svc.seen
    ensures var req := Allocate(d, ctx, cfg, t.ids(n), t.multiplier).value;
      var (svc, res) := SubmitSpec(cfg, st.svc, req, GuardContext(base, ctx, st.used), t.replies(n));
      StillAs(was, svc) && RightlyAnswered(cfg, t, was, st.orders + [res], |st.orders|)
  {
    hide Allocate, RunGuardrails, MarketIsOpen, Spent, SubmitSpec, HeldSymbols, BaseContext, EffectiveContext;
    var req := Allocate(d, ctx, cfg, t.ids(n), t.multiplier).value;
    var gctx := GuardContext(base, ctx, st.used);
    var (svc, res) := SubmitSpec(cfg, st.svc, req, gctx, t.replies(n));
    AllocateShape(d, ctx, cfg, t.ids(n), t.multiplier);
    NewOrderAnswered(cfg, st.svc, req, gctx, t.replies(n));
    KeepsExecutor(cfg, st.svc, req, gctx, t.replies(n));
    ViolationsAreGuards(cfg, st.svc, req, gctx, t.replies(n));
    assert base.killSwitch == was.killSwitch by { BaseSwitch(t, was.killSwitch); }
    SizedOrderPasses(cfg, t, base, ctx, d, t.ids(n), st.used, st.svc.killSwitch, st.svc.breaker.Tripped());
    HeldSymbolsAreItems(t.holdings, req.symbol);
    assert (st.orders + [res])[..|st.orders|] == st.orders;
  }

  lemma BaseSwitch(t: TickInput, killSwitch: bool)
    ensures BaseContext(t, killSwitch).killSwitch == killSwitch
  {
  }

  lemma KeepsExecutor(cfg: GuardrailConfig, svc: Service, order: OrderRequest, ctx: GuardrailContext, reply: Reply)
    ensures SubmitSpec(cfg, svc, order, ctx, reply).0.hasExecutor == svc.hasExecutor
  {
    hide RunGuardrails;
  }

  ghost predicate Going(cfg: GuardrailConfig, t: TickInput, was: Before, s: Service, st: LoopState, n: nat) {
    IdsUpTo(st.svc, s, t, n) && StillAs(was, st.svc) && st.used == t.dailyUsed + Spent(st.orders)
    && AllRightlyAnswered(cfg, t, was, st.orders)
  }

  lemma StepAnswers(cfg: GuardrailConfig, t: TickInput, was: Before, s: Service, st: LoopState, d: Decision, n: nat)
    requires cfg.perSymbolMaxWeight >= 0.0 && 0.0 <= d.confidence <= 1.0 && FreshIds(t, s) && Going(cfg, t, was, s, st, n)
    ensures Going(cfg, t, was, s, LoopStep(cfg, t, BaseContext(t, was.killSwitch), st, d, n), n + 1)
  {
    hide Allocate, Candidates, SubmitSpec, RightlyAnswered, Spent, BaseContext;
    var base := BaseContext(t, was.killSwitch);
    var after := LoopStep(cfg, t, base, st, d, n);
    StepMakes(cfg, t, base, st, s, d, n);
    LoopStepUsed(cfg, t, base, st, d, n);
    var found := Find(Candidates(t), d.symbol);
    if found.Some? && !(d.action.BuyIt? && !t.gate(d)) && Allocate(d, found.value, cfg, t.ids(n), t.multiplier).Some? {
      FindFrom(Candidates(t), d.symbol);
      CandidatesOfTick(t, found.value);
      assert t.ids(n) !in st.svc.seen;
      SubmitAnswers(cfg, t, was, base, st, found.value, d, n);
      var res := after.orders[|st.orders|];
      forall k | 0 <= k < |after.orders| ensures RightlyAnswered(cfg, t, was, after.orders, k) {
        if k < |st.orders| {
          RightlyAnsweredKept(cfg, t, was, st.orders, res, k);
        }
      }
    }
  }

  lemma {:induction false} LoopAnswers(cfg: GuardrailConfig, t: TickInput, was: Before, s: Service, start: LoopState, ds: seq<Decision>)
    requires cfg.perSymbolMaxWeight >= 0.0 && Confident(ds) && FreshIds(t, s)
    requires start.svc.seen == s.seen && start.orders == [] && start.used == t.dailyUsed && StillAs(was, start.svc)
    ensures Going(cfg, t, was, s, Loop(cfg, t, BaseContext(t, was.killSwitch), start, ds), |ds|)
  {
    hide LoopStep, FreshIds, BaseContext, RightlyAnswered;
    if ds != [] {
      var n := |ds| - 1;
      LoopAnswers(cfg, t, was, s, start, ds[..n]);
      StepAnswers(cfg, t, was, s, Loop(cfg, t, BaseContext(t, was.killSwitch), start, ds[..n]), ds[n], n);
    }
  }

  /**
   * Every order of a tick got the answer its circumstances call for: nothing is rejected for any other reason, and
   * nothing that should be rejected passes, whatever the judge and the replies are.
   */
  lemma {:induction false} OrdersRightlyAnswered(cfg: GuardrailConfig, bcfg: BreakerConfig, s: Service, t: TickInput)
    requires cfg.perSymbolMaxWeight >= 0.0 && FreshIds(t, s)
    ensures var equity := if t.cash.Some? then Some(t.cash.value + t.holdings.marketValue) else None;
      var breaker := AssessSpec(bcfg, s.breaker, equity, t.holdings.dailyPlRate, DayOf(t.now));
      AllRightlyAnswered(cfg, t, Before(s.killSwitch, s.mode, s.hasExecutor, breaker), RunTickSpec(cfg, bcfg, s, t).orders)
  {
    hide AssessSpec, LoopStep, Candidates, FreshIds, BaseContext, RightlyAnswered, Loop;
    if !(t.watchlistEmpty && t.holdings.items == []) {
      var assessed := s.(breaker := AssessSpec(bcfg, s.breaker, Equity(t), t.holdings.dailyPlRate, DayOf(t.now)));
      ForcedConfident(t.forced, Candidates(t));
      JudgedConfident(t, Candidates(t));
      LoopAnswers(cfg, t, Before(s.killSwitch, s.mode, s.hasExecutor, assessed.breaker), s,
                  LoopState(assessed, [], [], t.dailyUsed), Decisions(t));
    }
  }
}
