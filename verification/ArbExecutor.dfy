/**
 Entry: how the two executors create, fill and open a position, and how large the arb executor makes it.

 Order reports are inputs.  An entry is followed on both sides: the object the executor mutates, and the
 row that the repository keeps of it, which is what every later reader works from.
 */
module ArbExecutor {
  import opened FailureText
  import opened Positions
  import opened PositionService
  import R = Reconciler
  import L = Ledger
  import C = Crashes
  import X = ExitHandler

  datatype BuyReport = Bought(price: real, qty: real) | BuyRejected(text: string) | BuyErrored(text: string)

  datatype Entry = Entry(copy: Pos, row: Row)

  function Save(e: Entry, p: Pos): Entry { Entry(p, Persist(e.row, p)) }

  function EntryReason(report: BuyReport): FailureReason
    requires !report.Bought?
  {
    match report
    case BuyErrored(text) => ConnectivityError("YES order error: " + text)
    case BuyRejected(text) => OrderRejected(text)
  }

  function OneLeggedMessage(report: BuyReport): string
    requires !report.Bought?
  {
    match report
    case BuyErrored(text) => "NO order error after YES fill: " + text
    case BuyRejected(text) => "NO order rejected after YES fill: " + text
  }

  /** What the second order's report makes of a position whose first leg has filled. */
  function Finished(e1: Entry, no: BuyReport): Entry
    requires e1.copy.state.Pending?
  {
    if !no.Bought? then Save(e1, OneLeggedToExitReady(e1.copy, Yes, OneLeggedMessage(no)).value)
    else
      var e2 := Save(e1, EntryFill(e1.copy, No, no.price, no.qty));
      Save(e2, MarkOpen(e2.copy).value)
  }

  /** Steps 8 to 15 of process_arb_signal. */
  function ArbEntry(yesAsk: real, noAsk: real, quantity: real, yes: BuyReport, no: BuyReport): Entry {
    var p0 := NewPos(yesAsk, noAsk, quantity);
    var e0 := Entry(p0, Insert(p0));
    if !yes.Bought? then Save(e0, MarkEntryFailed(p0, EntryReason(yes)))
    else Finished(Save(e0, EntryFill(p0, Yes, yes.price, yes.qty)), no)
  }

  /** Steps 13 to 15 of the quant executor's process_signal, for a filled order: the other side has price zero. */
  function QuantEntry(leg: Leg, ask: real, quantity: real, price: real, qty: real): Entry {
    var p0 := if leg.Yes? then NewPos(ask, 0.0, quantity) else NewPos(0.0, ask, quantity);
    var e1 := Save(Entry(p0, Insert(p0)), EntryFill(p0, leg, price, qty));
    Save(e1, MarkOpen(e1.copy).value)
  }

  class Executor {
    const service: Service
    const activeMarkets: X.ActiveMarkets

    constructor (service: Service, activeMarkets: X.ActiveMarkets)
      ensures this.service == service && this.activeMarkets == activeMarkets
    {
      this.service, this.activeMarkets := service, activeMarkets;
    }

    /** Steps 11 to 15, once the first order has filled: the second leg, or the one-legged transition. */
    method FinishEntry(p: Position, marketId: string, e1: Entry, no: BuyReport)
      requires p.id in service.rows && e1 == Entry(p.Value(), service.rows[p.id]) && p.state.Pending?
      modifies service, activeMarkets, p
      ensures p.Value() == Finished(e1, no).copy
      ensures service.rows == old(service.rows)[p.id := Finished(e1, no).row]
      ensures activeMarkets.markets == old(activeMarkets.markets) + {marketId}
    {
      if no.Bought? {
        service.RecordEntryFill(p, No, no.price, no.qty);
        var _ := service.MarkOpen(p);
      } else {
        var _ := service.TransitionOneLegged(p, Yes, OneLeggedMessage(no));
      }
      activeMarkets.markets := activeMarkets.markets + {marketId};
    }

    /** Steps 8 to 15: exactly that object, that row, and the market in the shared set once the position is active. */
    method EnterArb(id: nat, marketId: string, yesAsk: real, noAsk: real, quantity: real, yes: BuyReport, no: BuyReport)
        returns (p: Position)
      requires id !in service.rows
      modifies service, activeMarkets
      ensures fresh(p) && p.id == id
      ensures p.Value() == ArbEntry(yesAsk, noAsk, quantity, yes, no).copy
      ensures service.rows == old(service.rows)[id := ArbEntry(yesAsk, noAsk, quantity, yes, no).row]
      ensures activeMarkets.markets == old(activeMarkets.markets) + (if p.Value().Active() then {marketId} else {})
    {
      p := service.CreatePosition(id, yesAsk, noAsk, quantity);
      if !yes.Bought? {
        service.MarkEntryFailed(p, EntryReason(yes));
        return;
      }
      service.RecordEntryFill(p, Yes, yes.price, yes.qty);
      FinishEntry(p, marketId, Entry(p.Value(), service.rows[id]), no);
    }
  }

  /** A failed first order is on record as what it was: an error of the order, or the exchange's own rejection. */
  lemma EntryFailureIsOnRecord(yesAsk: real, noAsk: real, quantity: real, text: string, no: BuyReport)
    ensures var e := ArbEntry(yesAsk, noAsk, quantity, BuyRejected(text), no);
      e.row.pos.state == EntryFailed && e.row.pos.reason == Some(OrderRejected(text)) && e.copy == e.row.pos
    ensures var e := ArbEntry(yesAsk, noAsk, quantity, BuyErrored(text), no);
      && e.row.pos.state == EntryFailed && e.row.pos.reason.Some? && e.row.pos.reason.value.ConnectivityError?
      && e.row.pos.reason.value.message == "YES order error: " + text
  {
  }

  /** A one-legged entry keeps the second order's text, and says whether it was rejected or failed. */
  lemma OneLeggedEntryIsOnRecord(yesAsk: real, noAsk: real, quantity: real, price: real, qty: real, text: string)
    ensures ArbEntry(yesAsk, noAsk, quantity, Bought(price, qty), BuyRejected(text)).row.pos.reason
      == Some(OneLeggedEntry("yes", "NO order rejected after YES fill: " + text))
    ensures ArbEntry(yesAsk, noAsk, quantity, Bought(price, qty), BuyErrored(text)).row.pos.reason
      == Some(OneLeggedEntry("yes", "NO order error after YES fill: " + text))
  {
  }

  // ── What an entry leaves behind ───────────────────────────────────────

  /**
   After a two-leg entry the ledger is sound in every calm run, but it can oversell unless both orders filled
   completely: the object's quantity follows the fills, the stored quantity stays at the requested size.  (Such a
   position is held to resolution, so its first sell order comes from the manual close.)  If processes die, a new
   position is safe from neither write-offs nor double sales.
   */
  lemma TwoLegEntry(yesAsk: real, noAsk: real, quantity: real, yes: BuyReport, no: BuyReport)
    requires yesAsk > 0.0 && noAsk > 0.0 && yes.Bought? && no.Bought?
    requires 0.0 < no.qty <= yes.qty <= quantity
    ensures var e := ArbEntry(yesAsk, noAsk, quantity, yes, no);
      && e.row.pos.state.Open? && e.row.pos.yes.held == yes.qty && e.row.pos.no.held == no.qty
      && e.row.pos.quantity == quantity && e.copy.quantity == no.qty
      && L.ConservedInEveryCalmRun(e.row)
      && L.Covered(e.copy)
      && (L.NeverOversoldWhenCalm(e.row) <==> no.qty == quantity)
      && !C.ConservedInEveryRun(e.row) && !C.NeverOversold(e.row)
  {
    var row := ArbEntry(yesAsk, noAsk, quantity, yes, no).row;
    L.ConservationExact(row);
    L.OversellExact(row);
    C.ConservationExact(row);
    C.OversellExact(row);
  }

  /** The same for a single-leg quant entry. */
  lemma SingleLegEntry(leg: Leg, ask: real, quantity: real, price: real, qty: real)
    requires ask > 0.0 && 0.0 < qty <= quantity
    ensures var e := QuantEntry(leg, ask, quantity, price, qty);
      && e.row.pos.state.Open?
      && L.ConservedInEveryCalmRun(e.row)
      && (L.NeverOversoldWhenCalm(e.row) <==> qty == quantity)
  {
    var row := QuantEntry(leg, ask, quantity, price, qty).row;
    L.ConservationExact(row);
    L.OversellExact(row);
  }

  /**
   A one-legged entry: the object sells the filled leg and nothing else, whatever the reports; the stored
   row still prices the missing leg, so it neither conserves its books nor stays within its holding, one
   reconciler pass puts the missing leg on the books at full size, and a handler that loads the row orders it.
   */
  lemma OneLeggedEntryResurrects(yesAsk: real, noAsk: real, quantity: real, yes: BuyReport, no: BuyReport, q: R.Quote, r: X.Reports)
    requires yesAsk > 0.0 && noAsk > 0.0 && yes.Bought? && !no.Bought?
    requires 0.0 < yes.qty <= quantity
    ensures var e := ArbEntry(yesAsk, noAsk, quantity, yes, no);
      && e.copy.state.ExitReady? && e.row.pos.state.ExitReady?
      && (forall o :: o in X.ExitOutcome(e.copy, r).orders ==> o == X.Order(Yes, yes.qty))
      && !L.ConservedInEveryCalmRun(e.row) && !L.NeverOversoldWhenCalm(e.row)
      && R.Pass(e.row, q).pos.no.held == quantity
      && e.row.pos.Holds(No)
  {
    var e := ArbEntry(yesAsk, noAsk, quantity, yes, no);
    X.ExitSellsHeldLegs(e.copy, r);
    L.ConservationExact(e.row);
    L.OversellExact(e.row);
    R.PassInventsInventory(e.row, q, No);
  }

  /**
   Flattening a one-legged row from storage: orders stay off the missing leg for every set of reports
   exactly when the stored price of that leg is zero.
   */
  lemma OneLeggedFlattenExact(row: Row, message: string)
    requires row.pos.state.Pending? || row.pos.state.EntryFailed?
    requires row.pos.yes.held > 0.0 && row.pos.no.exit.None?
    ensures var stored := Persist(row, OneLeggedToExitReady(row.pos, Yes, message).value).pos;
      (forall r: X.Reports :: NoOrderFor(No, X.ExitOutcome(stored, r).orders)) <==> row.pos.no.entry <= 0.0
  {
    var stored := Persist(row, OneLeggedToExitReady(row.pos, Yes, message).value).pos;
    if row.pos.no.entry <= 0.0 {
      forall r: X.Reports ensures NoOrderFor(No, X.ExitOutcome(stored, r).orders) {
        X.ExitSellsHeldLegs(stored, r);
      }
    } else {
      var r := X.Reports(X.Found, X.Filled(1.0, stored.yes.held, ""), X.Rejected(""));
      var c := MarkClosing(stored).value;
      var y := X.MaybeSell(X.Exit(c, []), c.Holds(Yes), Yes, r.yes);
      var orders := X.ExitOutcome(stored, r).orders;
      assert y.pos.state.Closing? && orders == y.orders + [X.Order(No, y.pos.quantity)];
      assert orders[|y.orders|].leg == No;
    }
  }

  /** After this run the leg has nothing on its books and was never sold. */
  predicate Absent(row: Row, steps: seq<L.Step>, leg: Leg) {
    var s := L.Run(L.Start(row), steps);
    s.row.pos.Book(leg).Total() == 0.0 && s.SalesOf(leg).count == 0
  }

  /**
   After the one-legged transition no run, with reconciler passes, deaths and start-ups, puts the missing leg on the books or
   sells it, exactly when the stored price of that leg is not positive.
   */
  lemma MissingLegStaysAwayExact(row: Row, held: Leg, message: string)
    requires row.pos.state.Pending? || row.pos.state.EntryFailed?
    requires NonNegative(row.pos) && row.pos.quantity > 0.0 && row.pos.Book(held).held > 0.0
    requires var b := row.pos.Book(Other(held)); b.held == 0.0 && b.exited == 0.0 && b.exit.None?
    ensures var stored := Persist(row, OneLeggedToExitReady(row.pos, held, message).value);
      (forall steps: seq<L.Step> :: Absent(stored, steps, Other(held))) <==> row.pos.Book(Other(held)).entry <= 0.0
  {
    var stored, missing := Persist(row, OneLeggedToExitReady(row.pos, held, message).value), Other(held);
    if row.pos.Book(missing).entry <= 0.0 {
      forall steps: seq<L.Step> ensures Absent(stored, steps, missing) {
        C.NeverBoughtStaysEmpty(L.Start(stored), steps, missing, 0.0);
      }
    } else {
      var q := R.Quote(None, None);
      R.PassInventsInventory(stored, q, missing);
      X.RunOne(L.Start(stored), L.Reconcile(q));
      assert !Absent(stored, [L.Reconcile(q)], missing);
    }
  }

  function Other(leg: Leg): Leg { if leg.Yes? then No else Yes }

  predicate NoOrderFor(leg: Leg, orders: seq<X.Order>) {
    forall i :: 0 <= i < |orders| ==> orders[i].leg != leg
  }

  // ── Sizing ────────────────────────────────────────────────────────────

  const PROFIT_CEILING := 0.05

  function Clamp01(t: real): real { if t < 0.0 then 0.0 else if t > 1.0 then 1.0 else t }

  /** Linear between minSize at the profit threshold and maxSize at five cents. */
  function DynamicSize(netProfit: real, threshold: real, minSize: real, maxSize: real): real {
    var range := PROFIT_CEILING - threshold;
    if range == 0.0 then minSize else Scale(minSize, maxSize, Share(netProfit - threshold, range))
  }

  function Share(part: real, range: real): real
    requires range != 0.0
  {
    Clamp01(part / range)
  }

  function Scale(lo: real, hi: real, t: real): real { lo + (hi - lo) * t }

  function FinalSize(size: real, multiplier: real): real {
    if multiplier < 1.0 then size * multiplier else size
  }

  lemma MulNonNegative(a: real, b: real)
    requires a >= 0.0 && b >= 0.0
    ensures a * b >= 0.0
  {
  }

  lemma FactorNonNegative(z: real, d: real)
    requires d > 0.0 && z * d >= 0.0
    ensures z >= 0.0
  {
  }

  lemma DivMono(a: real, b: real, d: real)
    requires a <= b && d > 0.0
    ensures a / d <= b / d
  {
    assert (b / d - a / d) * d == b - a;
    FactorNonNegative(b / d - a / d, d);
  }

  lemma DivSign(a: real, d: real)
    requires a >= 0.0 && d < 0.0
    ensures a / d <= 0.0
  {
    assert (-(a / d)) * (-d) == a;
    FactorNonNegative(-(a / d), -d);
  }

  /** A threshold above the ceiling does not invert the scale: every admitted signal then gets the minimum size. */
  lemma SizeAboveCeiling(netProfit: real, threshold: real, minSize: real, maxSize: real)
    requires netProfit >= threshold > PROFIT_CEILING
    ensures DynamicSize(netProfit, threshold, minSize, maxSize) == minSize
  {
    DivSign(netProfit - threshold, PROFIT_CEILING - threshold);
    assert Share(netProfit - threshold, PROFIT_CEILING - threshold) == 0.0;
  }

  lemma ScaleBounds(lo: real, hi: real, t: real, t': real)
    requires lo <= hi && 0.0 <= t <= t' <= 1.0
    ensures lo <= Scale(lo, hi, t) <= Scale(lo, hi, t') <= hi
  {
    MulNonNegative(hi - lo, t);
    MulNonNegative(hi - lo, t' - t);
    MulNonNegative(hi - lo, 1.0 - t');
  }

  lemma ShareMonotone(part: real, part': real, range: real)
    requires part <= part' && range > 0.0
    ensures 0.0 <= Share(part, range) <= Share(part', range) <= 1.0
  {
    DivMono(part, part', range);
  }

  /** For every threshold, admitted sizes stay in [minSize, maxSize] and grow with net profit. */
  lemma SizeBoundedAndMonotone(profit: real, profit': real, threshold: real, minSize: real, maxSize: real)
    requires threshold <= profit <= profit' && minSize <= maxSize
    ensures minSize <= DynamicSize(profit, threshold, minSize, maxSize)
            <= DynamicSize(profit', threshold, minSize, maxSize) <= maxSize
  {
    var range := PROFIT_CEILING - threshold;
    if range < 0.0 {
      SizeAboveCeiling(profit, threshold, minSize, maxSize);
      SizeAboveCeiling(profit', threshold, minSize, maxSize);
    } else if range > 0.0 {
      ShareMonotone(profit - threshold, profit' - threshold, range);
      ScaleBounds(minSize, maxSize, Share(profit - threshold, range), Share(profit' - threshold, range));
    }
  }

  /** The scale: the minimum at the threshold, the maximum from five cents on, the middle halfway between. */
  lemma SizeScale(profit: real, threshold: real, minSize: real, maxSize: real)
    requires threshold < PROFIT_CEILING
    ensures DynamicSize(threshold, threshold, minSize, maxSize) == minSize
    ensures profit >= 0.05 ==> DynamicSize(profit, threshold, minSize, maxSize) == maxSize
    ensures DynamicSize((threshold + 0.05) / 2.0, threshold, minSize, maxSize) == (minSize + maxSize) / 2.0
  {
    var range := PROFIT_CEILING - threshold;
    assert Share(0.0, range) == 0.0;
    WholeShare(range);
    if profit >= 0.05 {
      DivMono(range, profit - threshold, range);
      assert Share(profit - threshold, range) == 1.0;
      assert (maxSize - minSize) * 1.0 == maxSize - minSize;
    }
    HalfShare(range);
    assert (threshold + 0.05) / 2.0 - threshold == range / 2.0;
    assert (maxSize - minSize) * 0.5 == (maxSize - minSize) / 2.0;
  }

  lemma WholeShare(range: real)
    requires range > 0.0
    ensures range / range == 1.0
  {
  }

  lemma HalfShare(range: real)
    requires range > 0.0
    ensures Share(range / 2.0, range) == 0.5
  {
    var half := range / 2.0;
    assert half / range * range == half;
    assert (half / range - 0.5) * range == 0.0;
  }

  /** Between the ends the size is linear in net profit. */
  lemma SizeIsLinear(profit: real, threshold: real, minSize: real, maxSize: real)
    requires threshold <= profit <= 0.05 && threshold < PROFIT_CEILING
    ensures (DynamicSize(profit, threshold, minSize, maxSize) - minSize) * (0.05 - threshold)
      == (maxSize - minSize) * (profit - threshold)
  {
    var range, x := 0.05 - threshold, (profit - threshold) / (0.05 - threshold);
    ShareInside(profit - threshold, range);
    assert x * range == profit - threshold;
    Reassociate(maxSize - minSize, x, range);
  }

  lemma Reassociate(a: real, b: real, c: real)
    ensures (a * b) * c == a * (b * c)
  {
  }

  lemma ShareInside(part: real, range: real)
    requires 0.0 <= part <= range && range > 0.0
    ensures Share(part, range) == part / range
  {
    WholeShare(range);
    DivMono(0.0, part, range);
    DivMono(part, range, range);
  }

  /** A rollout's multiplier scales the size; without a reduction the size stays. */
  lemma FinalSizeScales(size: real, multiplier: real)
    requires multiplier <= 1.0
    ensures FinalSize(size, multiplier) == size * multiplier
  {
  }

  /** With a rollout multiplier the size stays in [0.05 minSize, maxSize]. */
  lemma FinalSizeBounded(profit: real, threshold: real, minSize: real, maxSize: real, multiplier: real)
    requires threshold <= profit && 0.0 <= minSize <= maxSize && 0.05 <= multiplier <= 1.0
    ensures 0.05 * minSize <= FinalSize(DynamicSize(profit, threshold, minSize, maxSize), multiplier) <= maxSize
  {
    SizeBoundedAndMonotone(profit, profit, threshold, minSize, maxSize);
    var size := DynamicSize(profit, threshold, minSize, maxSize);
    MulNonNegative(size, multiplier - 0.05);
    MulNonNegative(size, 1.0 - multiplier);
  }

  /** The exposure a new arb row adds, at its stored quantity and prices, is the position size it was given. */
  lemma EntryExposureIsSize(size: real, yesAsk: real, noAsk: real, yes: BuyReport, no: BuyReport)
    requires yesAsk + noAsk > 0.0
    ensures var p := ArbEntry(yesAsk, noAsk, size / (yesAsk + noAsk), yes, no).row.pos;
      p.quantity * (p.yes.entry + p.no.entry) == size
  {
    var c := yesAsk + noAsk;
    var p := ArbEntry(yesAsk, noAsk, size / c, yes, no).row.pos;
    assert p.quantity == size / c && p.yes.entry + p.no.entry == c;
    assert (size / c) * c == size;
  }
}
