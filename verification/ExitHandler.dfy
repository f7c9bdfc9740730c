/**
 The exit handler's `execute_exit`, with order reports, token lookups and market lookups as inputs.

 `ExitOutcome` says what one call does to the handler's copy; the method below does it through the
 service, and `ExecuteExitIsALedgerRun` shows that every call is a run of the ledger's steps.
 */
module ExitHandler {
  import opened FailureText
  import opened Positions
  import opened PositionService
  import L = Ledger

  datatype Market = Unavailable | Unresolved | Resolved(yesWins: Option<bool>)

  datatype SellReport =
    | Filled(price: real, qty: real, refusal: string)   // with the service's error, should it refuse the fill
    | Rejected(text: string)
    | Errored(text: string, market: Market)

  /** Token ids found, known to be missing, or the lookup itself returned an error. */
  datatype Tokens = Found | Missing | LookupError

  datatype Reports = Reports(tokens: Tokens, yes: SellReport, no: SellReport)

  datatype Order = Order(leg: Leg, qty: real)

  datatype Exit = Exit(pos: Pos, orders: seq<Order>)

  /** `finalize_resolution_close`: which close applies, if any, once the market is resolved. */
  function ResolutionMethod(p: Pos, market: Market): Option<CloseMethod> {
    if !market.Resolved? then None
    else if market.yesWins.Some? then Some(ResolutionWithWinner(market.yesWins.value))
    else if p.HasFullPair() then Some(ResolutionConservative)
    else None
  }

  function AfterError(p: Pos, leg: Leg, text: string, market: Market): Pos {
    var how := ResolutionMethod(p, market);
    var closed := if how.Some? then ClosePosition(p, how.value) else None;
    if closed.Some? then closed.value else MarkExitFailed(p, HandlerReason(SellError(leg, text)))
  }

  /** One leg's order: the copy afterwards, which is still Closing exactly when the fill was recorded. */
  function SellLeg(p: Pos, leg: Leg, report: SellReport): Pos {
    match report
    case Filled(price, qty, refusal) =>
      var recorded := ExitFill(p, leg, price, qty);
      if recorded.Some? then recorded.value
      else MarkExitFailed(p, HandlerReason(FillNotRecorded(leg, refusal)))
    case Rejected(text) => MarkExitFailed(p, HandlerReason(SellRejected(leg, text)))
    case Errored(text, market) => AfterError(p, leg, text, market)
  }

  function MaybeSell(e: Exit, held: bool, leg: Leg, report: SellReport): Exit {
    if held && e.pos.state.Closing?
    then Exit(SellLeg(e.pos, leg, report), e.orders + [Order(leg, e.pos.quantity)])
    else e
  }

  function ExitOutcome(p: Pos, r: Reports): Exit {
    var closing := MarkClosing(p);
    if closing.None? then Exit(p, [])
    else
      var c := closing.value;
      match r.tokens
      case LookupError => Exit(c, [])
      case Missing => Exit(MarkExitFailed(c, HandlerReason(NoTokenIds)), [])
      case Found =>
        var sold := MaybeSell(MaybeSell(Exit(c, []), c.Holds(Yes), Yes, r.yes), c.Holds(No), No, r.no);
        var closed := if sold.pos.state.Closing? then ClosePosition(sold.pos, MarketExit) else None;
        if closed.Some? then Exit(closed.value, sold.orders) else sold
  }

  // ── What a call can end in ────────────────────────────────────────────

  /** A call ends Closed or ExitFailed; it leaves the row stuck in Closing exactly when the token lookup erred. */
  lemma ExitEndsDecided(p: Pos, r: Reports)
    requires p.state.ExitReady?
    ensures var e := ExitOutcome(p, r).pos.state;
      && (e.Closed? || e.ExitFailed? || e.Closing?)
      && (e.Closing? <==> r.tokens.LookupError?)
  {
    if r.tokens.Found? {
      var c := MarkClosing(p).value;
      var y := MaybeSell(Exit(c, []), c.Holds(Yes), Yes, r.yes);
      var n := MaybeSell(y, c.Holds(No), No, r.no);
      assert y.pos.state.Closing? ==> !y.pos.yes.Outstanding() && y.pos.no == c.no;
      assert n.pos.state.Closing? ==> !n.pos.yes.Outstanding() && !n.pos.no.Outstanding();
    }
  }

  /** Orders go only to legs the prices call held, YES before NO, each once and at the position quantity. */
  lemma ExitSellsHeldLegs(p: Pos, r: Reports)
    ensures var orders := ExitOutcome(p, r).orders;
      && |orders| <= 2
      && (|orders| == 2 ==> orders[0].leg == Yes && orders[1].leg == No)
      && (forall o :: o in orders ==> p.Holds(o.leg) && o.qty == p.quantity)
  {
    if p.state.ExitReady? && r.tokens.Found? {
      var c := MarkClosing(p).value;
      var y := MaybeSell(Exit(c, []), c.Holds(Yes), Yes, r.yes);
      assert y.orders == (if c.Holds(Yes) then [Order(Yes, p.quantity)] else []);
      assert y.pos.quantity == p.quantity;
    }
  }

  /** A leg with a recorded exit price is never ordered again, and its price never changes. */
  lemma RecordedLegsAreLeftAlone(p: Pos, r: Reports, leg: Leg)
    requires p.Book(leg).exit.Some?
    ensures forall o :: o in ExitOutcome(p, r).orders ==> o.leg != leg
    ensures ExitOutcome(p, r).pos.Book(leg).exit == p.Book(leg).exit
  {
    ExitSellsHeldLegs(p, r);
  }

  /**
   An order error on a resolved market.  With a known winner the position is closed and every leg still unsold is
   paid one or zero by its side; without one only a full pair is closed, and no price is set; else the exit fails.
   */
  lemma ErrorOnResolvedMarket(p: Pos, leg: Leg, text: string, winner: Option<bool>, paid: Leg)
    requires p.state.Closing?
    ensures var p' := SellLeg(p, leg, Errored(text, Resolved(winner)));
      && (winner.Some? ==>
            && p'.state == Closed && p'.Book(paid).held == 0.0
            && (p.Holds(paid) ==> p'.Book(paid).exit == Some(if (paid == Yes) == winner.value then 1.0 else 0.0))
            && (!p.Holds(paid) ==> p'.Book(paid).exit == p.Book(paid).exit)
            && p'.winner == Some(if winner.value then Yes else No))
      && (winner.None? && p.HasFullPair() ==> p'.state == Closed && p'.Book(paid).exit == p.Book(paid).exit)
      && (winner.None? && !p.HasFullPair() ==> p'.state == ExitFailed && p'.Book(paid) == p.Book(paid))
  {
    if winner.Some? { ResolutionPays(p, winner.value, paid); }
  }

  /** An order error on any other market fails the exit and leaves both legs as they were. */
  lemma ErrorOnOpenMarket(p: Pos, leg: Leg, text: string, market: Market)
    requires p.state.Closing? && !market.Resolved?
    ensures var p' := SellLeg(p, leg, Errored(text, market));
      p'.state == ExitFailed && p'.yes == p.yes && p'.no == p.no && p'.retries == p.retries + 1
  {
  }

  // ── Refinement: each call is a run of ledger steps ────────────────────

  /** A fill is positive and no larger than its order. */
  predicate Fits(report: SellReport, quantity: real) {
    report.Filled? ==> 0.0 < report.qty <= quantity
  }

  predicate FillsFit(p: Pos, r: Reports) { Fits(r.yes, p.quantity) && Fits(r.no, p.quantity) }

  function LegOp(p: Pos, leg: Leg, report: SellReport): L.Op {
    match report
    case Filled(price, qty, refusal) => L.Sell(leg, price, qty, refusal)
    case Rejected(text) => L.Fail(SellRejected(leg, text))
    case Errored(text, market) =>
      var how := ResolutionMethod(p, market);
      if how.Some? && ClosePosition(p, how.value).Some? then L.Close(how.value) else L.Fail(SellError(leg, text))
  }

  /** The ledger state after the handler's order for one leg, if it places one. */
  function LegStep(s: L.Sys, held: bool, leg: Leg, report: SellReport): L.Sys {
    if held && s.copy.Some? && s.copy.value.state.Closing?
    then L.Next(s, L.Act(LegOp(s.copy.value, leg, report))) else s
  }

  function ExitSteps(s: L.Sys, r: Reports): seq<L.Step>
    requires s.copy.Some?
  {
    var c := MarkClosing(s.copy.value);
    if c.None? then []
    else
      var started := L.Next(s, L.Act(L.StartClosing));
      [L.Act(L.StartClosing)] +
      match r.tokens
      case LookupError => []
      case Missing => [L.Act(L.Fail(NoTokenIds))]
      case Found =>
        var afterYes := LegStep(started, c.value.Holds(Yes), Yes, r.yes);
        (if c.value.Holds(Yes) then [L.Act(LegOp(c.value, Yes, r.yes))] else []) +
        (if c.value.Holds(No) && afterYes.copy.Some? && afterYes.copy.value.state.Closing?
         then [L.Act(LegOp(afterYes.copy.value, No, r.no))] else []) +
        [L.Act(L.Close(MarketExit))]
  }

  lemma LegStepAgrees(s: L.Sys, e: Exit, held: bool, leg: Leg, report: SellReport)
    requires s.copy == Some(e.pos)
    requires held && e.pos.state.Closing? ==> e.pos.Holds(leg)
    requires Fits(report, e.pos.quantity)
    ensures LegStep(s, held, leg, report).copy == Some(MaybeSell(e, held, leg, report).pos)
  {
  }

  lemma {:induction false} RunConcat(s: L.Sys, a: seq<L.Step>, b: seq<L.Step>)
    ensures L.Run(s, a + b) == L.Run(L.Run(s, a), b)
    decreases |a|
  {
    if a == [] {
      assert a + b == b;
    } else {
      assert (a + b)[1..] == a[1..] + b;
      RunConcat(L.Next(s, a[0]), a[1..], b);
    }
  }

  lemma RunOne(s: L.Sys, step: L.Step)
    ensures L.Run(s, [step]) == L.Next(s, step)
  {
    assert [step][1..] == [];
    assert L.Run(L.Next(s, step), []) == L.Next(s, step);
  }

  /** Whatever is ordered and reported, one call of execute_exit is a run of the ledger from the handler's copy. */
  lemma ExecuteExitIsALedgerRun(s: L.Sys, r: Reports)
    requires s.copy.Some? && FillsFit(s.copy.value, r)
    ensures L.Run(s, ExitSteps(s, r)).copy == Some(ExitOutcome(s.copy.value, r).pos)
  {
    var p := s.copy.value;
    if MarkClosing(p).Some? {
      var c := MarkClosing(p).value;
      var s1 := L.Next(s, L.Act(L.StartClosing));
      RunOne(s, L.Act(L.StartClosing));
      match r.tokens
      case LookupError => assert ExitSteps(s, r) == [L.Act(L.StartClosing)];
      case Missing =>
        RunConcat(s, [L.Act(L.StartClosing)], [L.Act(L.Fail(NoTokenIds))]);
        RunOne(s1, L.Act(L.Fail(NoTokenIds)));
      case Found =>
        var s2 := LegStep(s1, c.Holds(Yes), Yes, r.yes);
        var s3 := LegStep(s2, c.Holds(No), No, r.no);
        FoundRun(s, s1, s2, s3, c, r);
        BothLegsAgree(s1, c, r);
    }
  }

  /** The two orders and the final close leave the same copy on both sides. */
  lemma BothLegsAgree(s1: L.Sys, c: Pos, r: Reports)
    requires s1.copy == Some(c) && c.state.Closing? && FillsFit(c, r)
    ensures var sold := MaybeSell(MaybeSell(Exit(c, []), c.Holds(Yes), Yes, r.yes), c.Holds(No), No, r.no).pos;
      var s3 := LegStep(LegStep(s1, c.Holds(Yes), Yes, r.yes), c.Holds(No), No, r.no);
      && s3.copy == Some(sold)
      && L.Next(s3, L.Act(L.Close(MarketExit))).copy
         == Some(if sold.state.Closing? && ClosePosition(sold, MarketExit).Some? then ClosePosition(sold, MarketExit).value else sold)
  {
    var e0 := Exit(c, []);
    LegStepAgrees(s1, e0, c.Holds(Yes), Yes, r.yes);
    var s2, e1 := LegStep(s1, c.Holds(Yes), Yes, r.yes), MaybeSell(e0, c.Holds(Yes), Yes, r.yes);
    assert e1.pos.quantity == c.quantity && (e1.pos.state.Closing? ==> e1.pos.no == c.no);
    LegStepAgrees(s2, e1, c.Holds(No), No, r.no);
  }

  lemma FoundRun(s: L.Sys, s1: L.Sys, s2: L.Sys, s3: L.Sys, c: Pos, r: Reports)
    requires s.copy.Some? && MarkClosing(s.copy.value) == Some(c) && r.tokens.Found?
    requires s1 == L.Next(s, L.Act(L.StartClosing)) && s1.copy == Some(c)
    requires s2 == LegStep(s1, c.Holds(Yes), Yes, r.yes)
    requires s3 == LegStep(s2, c.Holds(No), No, r.no)
    ensures L.Run(s, ExitSteps(s, r)) == L.Next(s3, L.Act(L.Close(MarketExit)))
  {
    var a := [L.Act(L.StartClosing)];
    var b := if c.Holds(Yes) then [L.Act(LegOp(c, Yes, r.yes))] else [];
    var d := if c.Holds(No) && s2.copy.Some? && s2.copy.value.state.Closing?
             then [L.Act(LegOp(s2.copy.value, No, r.no))] else [];
    var f := [L.Act(L.Close(MarketExit))];
    assert ExitSteps(s, r) == a + (b + d + f);
    RunConcat(s, a, b + d + f);
    RunOne(s, a[0]);
    RunConcat(s1, b + d, f);
    RunConcat(s1, b, d);
    if b != [] { RunOne(s1, b[0]); }
    if d != [] { RunOne(s2, d[0]); }
    RunOne(s3, f[0]);
  }

  // ── The handler itself ────────────────────────────────────────────────

  /** The set of markets with a position, shared with the arb executor. */
  class ActiveMarkets {
    var markets: set<string>

    constructor (initial: set<string>)
      ensures markets == initial
    {
      markets := initial;
    }
  }

  class Handler {
    const service: Service
    const dedup: ActiveMarkets

    constructor (service: Service, dedup: ActiveMarkets)
      ensures this.service == service && this.dedup == dedup
    {
      this.service, this.dedup := service, dedup;
    }

    /** Close the copy by resolution if the market has resolved and a close applies. */
    method CloseIfResolved(p: Position, marketId: string, market: Market) returns (closed: bool)
      modifies dedup, service, p
      ensures var how := ResolutionMethod(old(p.Value()), market);
        var target := if how.Some? then Positions.ClosePosition(old(p.Value()), how.value) else None;
        && closed == target.Some?
        && p.Value() == (if closed then target.value else old(p.Value()))
        && service.rows == (if closed then Saved(old(service.rows), p.id, p.Value()) else old(service.rows))
        && dedup.markets == (if closed then old(dedup.markets) - {marketId} else old(dedup.markets))
    {
      var how := ResolutionMethod(p.Value(), market);
      if how.None? { return false; }
      closed := service.ClosePosition(p, how.value);
      if closed { dedup.markets := dedup.markets - {marketId}; }
    }

    /** Place and account for one leg's sell order; false stops the exit. */
    method SellOne(p: Position, marketId: string, leg: Leg, report: SellReport) returns (goOn: bool)
      requires p.state.Closing?
      modifies dedup, service, p
      ensures p.Value() == SellLeg(old(p.Value()), leg, report)
      ensures service.rows == Saved(old(service.rows), p.id, p.Value())
      ensures goOn == p.state.Closing?
      ensures dedup.markets == (if p.state.Closed? then old(dedup.markets) - {marketId} else old(dedup.markets))
    {
      goOn := false;
      match report {
        case Errored(text, market) =>
          var closed := CloseIfResolved(p, marketId, market);
          if !closed { service.MarkExitFailed(p, HandlerReason(SellError(leg, text))); }
        case Rejected(text) =>
          service.MarkExitFailed(p, HandlerReason(SellRejected(leg, text)));
        case Filled(price, qty, refusal) =>
          goOn := service.RecordExitFill(p, leg, price, qty);
          if !goOn { service.MarkExitFailed(p, HandlerReason(FillNotRecorded(leg, refusal))); }
      }
    }

    /** `execute_exit`: the market leaves the dedup set exactly when the position ends Closed. */
    method ExecuteExit(p: Position, marketId: string, r: Reports) returns (orders: seq<Order>)
      modifies dedup, service, p
      ensures p.Value() == ExitOutcome(old(p.Value()), r).pos && orders == ExitOutcome(old(p.Value()), r).orders
      ensures service.rows ==
        if old(p.state).ExitReady? then Saved(old(service.rows), p.id, p.Value()) else old(service.rows)
      ensures dedup.markets == if old(p.state).ExitReady? && p.state.Closed? then old(dedup.markets) - {marketId} else old(dedup.markets)
    {
      orders := [];
      ghost var rows0 := service.rows;
      var ok := service.MarkClosing(p);
      if !ok { return; }
      ghost var c := p.Value();
      match r.tokens {
        case LookupError => return;
        case Missing =>
          service.MarkExitFailed(p, HandlerReason(NoTokenIds));
          LastSaveWins(rows0, p.id, c, p.Value());
          return;
        case Found =>
      }
      var hasYes, hasNo := p.Value().Holds(Yes), p.Value().Holds(No);
      if hasYes {
        orders := orders + [Order(Yes, p.quantity)];
        var goOn := SellOne(p, marketId, Yes, r.yes);
        LastSaveWins(rows0, p.id, c, p.Value());
        if !goOn { return; }
      }
      ghost var y := p.Value();
      if hasNo {
        orders := orders + [Order(No, p.quantity)];
        var goOn := SellOne(p, marketId, No, r.no);
        LastSaveWins(rows0, p.id, y, p.Value());
        if !goOn { return; }
      }
      ghost var n := p.Value();
      ok := service.ClosePosition(p, MarketExit);
      LastSaveWins(rows0, p.id, n, p.Value());
      if ok { dedup.markets := dedup.markets - {marketId}; }
    }
  }
}
