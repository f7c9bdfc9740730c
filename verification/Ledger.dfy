/**
 The inventory ledger over whole runs.

 One position is followed from the moment it is Open or ExitReady.  The exit handler, or the manual close of
 the API, works on a copy it loaded earlier and writes it back one service call at a time; reconciler passes on
 the stored row may fall between any two of its calls.  The process may die at any point, also between an order's
 fill and its record, and the arb monitor's start-up then finds the row.  Each run is a sequence of such steps,
 in any order the guards allow; a step whose guard fails changes nothing.
 */
module Ledger {
  import opened FailureText
  import opened Positions
  import opened Reconciler

  datatype Step =
    | Reconcile(quote: Quote)
    | Load             // the handler reads the row (Open, ExitReady or ExitFailed)
    | Drop             // it stops working on its copy: done, error return or crash
    | Act(op: Op)      // one service call on the copy
    | DieAfterFill(leg: Leg, qty: real)   // a sell order is filled and the process dies before recording it
    | MonitorStart(between: seq<Quote>)   // the arb monitor's start-up, with reconciler passes between its two writes

  datatype Op =
    | Mark(pnl: real)                          // evaluate_open_positions writes a fresh mark
    | Ready                                    // mark_exit_ready: the exit rules for ExitOnCorrection rows, else the manual close
    | StartClosing                             // mark_closing
    | Sell(leg: Leg, price: real, qty: real, refusal: string)   // a sell order is filled; the fill is recorded, or refused with this text
    | Fail(failure: HandlerFailure)            // an exit failure without a fill
    | Close(how: CloseMethod)
    | Requeue                                  // attempt_exit_recovery

  /** What left the wallet through one leg's sell orders, and the prices of the fills that were reported. */
  datatype Sales = Sales(count: nat, sold: real, prices: seq<real>)

  datatype Sys = Sys(
    row: Row,
    copy: Option<Pos>,
    yes: Sales,
    no: Sales,
    closedBy: Option<CloseMethod>,
    fails: nat,
    requeues: nat)
  {
    function SalesOf(leg: Leg): Sales { if leg.Yes? then yes else no }
  }

  function Start(row: Row): Sys { Sys(row, None, Sales(0, 0.0, []), Sales(0, 0.0, []), None, 0, 0) }

  /** A successful service call: the copy changes and is written through. */
  function Written(s: Sys, target: Option<Pos>): Sys {
    if target.None? then s else s.(row := Persist(s.row, target.value), copy := target)
  }

  function Failed(s: Sys, p: Pos, failure: HandlerFailure): Sys {
    Written(s, Some(MarkExitFailed(p, HandlerReason(failure)))).(fails := s.fails + 1)
  }

  function Sold(s: Sys, leg: Leg, qty: real, prices: seq<real>): Sys {
    var t := Sales(s.SalesOf(leg).count + 1, s.SalesOf(leg).sold + qty, s.SalesOf(leg).prices + prices);
    if leg.Yes? then s.(yes := t) else s.(no := t)
  }

  /** The order went through; what happens next depends on the over-fill guard. */
  function AfterFill(s: Sys, p: Pos, leg: Leg, price: real, qty: real, refusal: string): Sys {
    var recorded := ExitFill(p, leg, price, qty);
    if recorded.Some? then Written(Sold(s, leg, qty, [price]), recorded)
    else Failed(Sold(s, leg, qty, [price]), p, FillNotRecorded(leg, refusal))
  }

  function Perform(s: Sys, p: Pos, op: Op): Sys {
    match op
    case Mark(pnl) => if p.state.Open? then Written(s, Some(p.(unrealized := pnl))) else s
    case Ready => Written(s, MarkExitReady(p))
    case StartClosing => Written(s, MarkClosing(p))
    case Sell(leg, price, qty, refusal) =>
      if p.state.Closing? && p.Holds(leg) && 0.0 < qty <= p.quantity then AfterFill(s, p, leg, price, qty, refusal) else s
    case Fail(failure) => if p.state.Closing? then Failed(s, p, failure) else s
    case Close(how) =>
      if ClosePosition(p, how).None? || p.state.ExitFailed? then s
      else Written(s, ClosePosition(p, how)).(closedBy := Some(how))
    case Requeue =>
      if ExitRecovery(p).None? then s else Written(s, ExitRecovery(p)).(requeues := s.requeues + 1)
  }

  /** The monitor's own copy after its first write: a row found in Closing is a failed exit. */
  function MonitorCopy(p: Pos): Pos {
    if p.state.Closing? then MarkExitFailed(p, INTERRUPTED_CLOSING) else p
  }

  /** `reconcile_on_startup` on one row: mark an interrupted close, then requeue every failed exit with attempts left. */
  function MonitorStartup(row: Row, between: seq<Quote>): Row {
    var mem := MonitorCopy(row.pos);
    var marked := Passes(if row.pos.state.Closing? then Persist(row, mem) else row, between);
    if ExitRecovery(mem).Some? then Persist(marked, ExitRecovery(mem).value) else marked
  }

  function Next(s: Sys, step: Step): Sys {
    match step
    case DieAfterFill(leg, qty) =>
      if s.copy.Some? && s.copy.value.state.Closing? && s.copy.value.Holds(leg) && 0.0 < qty <= s.copy.value.quantity
      then Sold(s, leg, qty, []).(copy := None) else s
    case MonitorStart(between) =>
      if s.copy.Some? then s
      else s.(row := MonitorStartup(s.row, between),
              fails := if s.row.pos.state.Closing? then s.fails + 1 else s.fails,
              requeues := if ExitRecovery(MonitorCopy(s.row.pos)).Some? then s.requeues + 1 else s.requeues)
    case Reconcile(q) => s.(row := Pass(s.row, q))
    case Drop => s.(copy := None)
    case Load =>
      if s.copy.None? && s.row.pos.state in {Open, ExitReady, ExitFailed} then s.(copy := Some(s.row.pos)) else s
    case Act(op) => if s.copy.None? then s else Perform(s, s.copy.value, op)
  }

  function Run(s: Sys, steps: seq<Step>): Sys
    decreases |steps|
  {
    if steps == [] then s else Run(Next(s, steps[0]), steps[1..])
  }

  // ── Conservation ──────────────────────────────────────────────────────

  predicate Entered(p: Pos) { p.state in {Open, ExitReady} }

  /** The ledger invariant: per-leg totals are fixed, and every leg the prices call held is on the books. */
  ghost predicate BooksOk(p: Pos, totalYes: real, totalNo: real) {
    && NonNegative(p)
    && p.yes.Total() == totalYes && p.no.Total() == totalNo
    && p.state in {Open, ExitReady, Closing, ExitFailed, Closed}
    && (p.state.Closed? ==> p.yes.held == 0.0 && p.no.held == 0.0)
    && (!p.state.Closed? ==> Backed(p.yes) && Backed(p.no))
    && (p.state.ExitFailed? ==> LiveFailure(p))
  }

  ghost predicate Inv(s: Sys, totalYes: real, totalNo: real) {
    && BooksOk(s.row.pos, totalYes, totalNo)
    && (s.copy.Some? ==> s.copy.value == s.row.pos.(unrealized := s.copy.value.unrealized))
  }

  lemma ReconcileKeepsBooks(s: Sys, q: Quote, totalYes: real, totalNo: real)
    requires Inv(s, totalYes, totalNo)
    ensures Inv(Next(s, Reconcile(q)), totalYes, totalNo)
  {
    if !s.row.pos.state.Closed? {
      PassKeepsBackedRows(s.row, q);
    }
  }

  /** A write-back of a value with sound books re-establishes the invariant. */
  lemma WriteKeepsBooks(s: Sys, p: Pos, totalYes: real, totalNo: real)
    requires Inv(s, totalYes, totalNo)
    requires p.quantity == s.row.pos.quantity
    requires p.yes.entry == s.row.pos.yes.entry && p.no.entry == s.row.pos.no.entry
    requires BooksOk(p, totalYes, totalNo)
    ensures Inv(Written(s, Some(p)), totalYes, totalNo)
    ensures Written(s, Some(p)).row.pos == p
  {
  }

  lemma FailureKeepsBooks(s: Sys, p: Pos, failure: HandlerFailure, totalYes: real, totalNo: real)
    requires Inv(s, totalYes, totalNo) && s.copy == Some(p) && p.state.Closing?
    ensures Inv(Failed(s, p, failure), totalYes, totalNo)
    ensures Failed(s, p, failure).row.pos == MarkExitFailed(p, HandlerReason(failure))
  {
    HandlerReasonsAreLive(failure);
    WriteKeepsBooks(s, MarkExitFailed(p, HandlerReason(failure)), totalYes, totalNo);
  }

  lemma SellKeepsBooks(s: Sys, p: Pos, leg: Leg, price: real, qty: real, refusal: string, totalYes: real, totalNo: real)
    requires Inv(s, totalYes, totalNo) && s.copy == Some(p)
    requires p.state.Closing? && p.Holds(leg) && 0.0 < qty <= p.quantity
    ensures Inv(AfterFill(s, p, leg, price, qty, refusal), totalYes, totalNo)
  {
    var r := ExitFill(p, leg, price, qty);
    if r.Some? {
      WriteKeepsBooks(Sold(s, leg, qty, [price]), r.value, totalYes, totalNo);
    } else {
      FailureKeepsBooks(Sold(s, leg, qty, [price]), p, FillNotRecorded(leg, refusal), totalYes, totalNo);
    }
  }

  lemma OpKeepsBooks(s: Sys, p: Pos, op: Op, totalYes: real, totalNo: real)
    requires Inv(s, totalYes, totalNo) && s.copy == Some(p)
    ensures Inv(Perform(s, p, op), totalYes, totalNo)
  {
    match op
    case Sell(leg, price, qty, refusal) =>
      if p.state.Closing? && p.Holds(leg) && 0.0 < qty <= p.quantity {
        SellKeepsBooks(s, p, leg, price, qty, refusal, totalYes, totalNo);
      }
    case Fail(failure) =>
      if p.state.Closing? { FailureKeepsBooks(s, p, failure, totalYes, totalNo); }
    case Close(how) =>
      if ClosePosition(p, how).Some? { WriteKeepsBooks(s, ClosePosition(p, how).value, totalYes, totalNo); }
    case _ =>
  }

  /** No process dies. */
  ghost predicate Calm(steps: seq<Step>) {
    forall i :: 0 <= i < |steps| ==> !steps[i].DieAfterFill? && !steps[i].MonitorStart?
  }

  lemma StepKeepsBooks(s: Sys, step: Step, totalYes: real, totalNo: real)
    requires Inv(s, totalYes, totalNo) && !step.MonitorStart?
    ensures Inv(Next(s, step), totalYes, totalNo)
  {
    match step
    case Reconcile(q) => ReconcileKeepsBooks(s, q, totalYes, totalNo);
    case Act(op) => if s.copy.Some? { OpKeepsBooks(s, s.copy.value, op, totalYes, totalNo); }
    case _ =>
  }

  /** Over every calm run, held + exited of each leg is what it was at entry, and Closed holds nothing. */
  lemma {:induction false} BooksAreConserved(s: Sys, steps: seq<Step>, totalYes: real, totalNo: real)
    requires Inv(s, totalYes, totalNo) && Calm(steps)
    ensures Inv(Run(s, steps), totalYes, totalNo)
    decreases |steps|
  {
    if steps != [] {
      StepKeepsBooks(s, steps[0], totalYes, totalNo);
      BooksAreConserved(Next(s, steps[0]), steps[1..], totalYes, totalNo);
    }
  }

  ghost predicate SameTotals(p: Pos, p': Pos) {
    p'.yes.Total() == p.yes.Total() && p'.no.Total() == p.no.Total()
  }

  ghost predicate ConservedInEveryCalmRun(row: Row) {
    forall steps: seq<Step> :: Calm(steps) ==> SameTotals(row.pos, Run(Start(row), steps).row.pos)
  }

  /** Conservation holds in every calm run exactly when each leg the stored prices call held is on the books. */
  lemma ConservationExact(row: Row)
    requires Entered(row.pos) && NonNegative(row.pos) && row.pos.quantity > 0.0
    ensures ConservedInEveryCalmRun(row) <==> Backed(row.pos.yes) && Backed(row.pos.no)
  {
    if Backed(row.pos.yes) && Backed(row.pos.no) {
      forall steps: seq<Step> | Calm(steps) ensures SameTotals(row.pos, Run(Start(row), steps).row.pos) {
        BooksAreConserved(Start(row), steps, row.pos.yes.Total(), row.pos.no.Total());
      }
    } else {
      var leg := if Backed(row.pos.yes) then No else Yes;
      var q := Quote(None, None);
      PassInventsInventory(row, q, leg);
      assert Run(Start(row), [Reconcile(q)]) == Run(Next(Start(row), Reconcile(q)), []);
      assert Calm([Reconcile(q)]) && !SameTotals(row.pos, Run(Start(row), [Reconcile(q)]).row.pos);
    }
  }

  // ── Recorded legs, with no assumption on the row ──────────────────────

  /** The handler's copy has the exit prices of the row. */
  ghost predicate ExitsSynced(s: Sys) {
    s.copy.Some? ==>
      s.copy.value.yes.exit == s.row.pos.yes.exit && s.copy.value.no.exit == s.row.pos.no.exit
  }

  lemma StepKeepsRecordedLeg(s: Sys, step: Step, leg: Leg)
    requires ExitsSynced(s)
    ensures ExitsSynced(Next(s, step))
    ensures s.row.pos.Book(leg).exit.Some? ==>
      Next(s, step).SalesOf(leg) == s.SalesOf(leg) && Next(s, step).row.pos.Book(leg).exit == s.row.pos.Book(leg).exit
  {
    if step.MonitorStart? {
      MonitorFrame(s.row, step.between);
    }
  }

  /** What the monitor's start-up leaves alone on any row, and how it changes the state. */
  lemma MonitorFrame(row: Row, between: seq<Quote>)
    ensures var p, p' := row.pos, MonitorStartup(row, between).pos;
      && p'.quantity == p.quantity
      && p'.yes == p.yes.(held := p'.yes.held) && p'.no == p.no.(held := p'.no.held)
      && p'.retries == (if p.state.Closing? then p.retries + 1 else p.retries)
      && (ExitRecovery(MonitorCopy(p)).Some? ==>
            p' == MonitorCopy(p).(state := ExitReady, reason := None))
      && (ExitRecovery(MonitorCopy(p)).None? ==>
            if p.state.Closing? || Failure(p.state) then Failure(p'.state) else p'.state == p.state)
  {
    var mem := MonitorCopy(row.pos);
    var marked := if row.pos.state.Closing? then Persist(row, mem) else row;
    assert marked.pos == mem;
    PassesFrame(marked, between);
  }

  lemma {:induction false} RunKeepsRecordedLeg(s: Sys, steps: seq<Step>, leg: Leg)
    requires ExitsSynced(s)
    ensures ExitsSynced(Run(s, steps))
    ensures s.row.pos.Book(leg).exit.Some? ==>
      Run(s, steps).SalesOf(leg) == s.SalesOf(leg) && Run(s, steps).row.pos.Book(leg).exit == s.row.pos.Book(leg).exit
    decreases |steps|
  {
    if steps != [] {
      StepKeepsRecordedLeg(s, steps[0], leg);
      RunKeepsRecordedLeg(Next(s, steps[0]), steps[1..], leg);
    }
  }

  /**
   From any row and after any run: once a leg's exit is recorded it is never sold again and the price stays,
   over any continuation by failed exits, requeues, closes, reloads and reconciler passes.
   */
  lemma NeverSoldAgain(row: Row, before: seq<Step>, after: seq<Step>, leg: Leg)
    requires Run(Start(row), before).row.pos.Book(leg).exit.Some?
    ensures var s, s' := Run(Start(row), before), Run(Run(Start(row), before), after);
      s'.SalesOf(leg) == s.SalesOf(leg) && s'.row.pos.Book(leg).exit == s.row.pos.Book(leg).exit
  {
    RunKeepsRecordedLeg(Start(row), before, leg);
    RunKeepsRecordedLeg(Run(Start(row), before), after, leg);
  }

  ghost predicate CloseIsFinal(s: Sys) {
    s.closedBy.Some? ==> s.row.pos.state.Closed? && (s.copy.Some? ==> s.copy.value.state.Closed?)
  }

  lemma StepKeepsClose(s: Sys, step: Step)
    requires CloseIsFinal(s)
    ensures CloseIsFinal(Next(s, step))
    ensures s.closedBy.Some? ==> Next(s, step).closedBy == s.closedBy
  {
    if step.MonitorStart? {
      MonitorFrame(s.row, step.between);
    }
  }

  predicate PricedBy(price: real, prices: seq<real>) { prices != [] && price == prices[|prices| - 1] }

  /** A priced leg: its exit price is that of its last fill unless a resolution closed the row, and a market exit needs one. */
  ghost predicate FillInv(s: Sys, leg: Leg) {
    && ExitsSynced(s)
    && s.row.pos.Book(leg).entry > 0.0 && (s.copy.Some? ==> s.copy.value.Book(leg).entry > 0.0)
    && CloseIsFinal(s)
    && (s.closedBy in {None, Some(MarketExit)} && s.row.pos.Book(leg).exit.Some? ==>
          s.SalesOf(leg).count >= 1 && PricedBy(s.row.pos.Book(leg).exit.value, s.SalesOf(leg).prices))
    && (s.closedBy == Some(MarketExit) ==> s.row.pos.Book(leg).exit.Some?)
  }

  lemma StepKeepsFillInv(s: Sys, step: Step, leg: Leg)
    requires FillInv(s, leg)
    ensures FillInv(Next(s, step), leg)
  {
    StepKeepsClose(s, step);
    StepKeepsRecordedLeg(s, step, leg);
    match step
    case Act(op) =>
      if s.copy.Some? {
        match op
        case Sell(sold, price, qty, refusal) => SaleKeepsFillInv(s, s.copy.value, sold, price, qty, refusal, leg);
        case Close(how) => CloseKeepsFillInv(s, s.copy.value, how, leg);
        case _ =>
      }
    case MonitorStart(between) => MonitorFrame(s.row, between);
    case _ =>
  }

  lemma SaleKeepsFillInv(s: Sys, p: Pos, sold: Leg, price: real, qty: real, refusal: string, leg: Leg)
    requires FillInv(s, leg) && s.copy == Some(p)
    ensures FillInv(Perform(s, p, Sell(sold, price, qty, refusal)), leg)
  {
  }

  lemma CloseKeepsFillInv(s: Sys, p: Pos, how: CloseMethod, leg: Leg)
    requires FillInv(s, leg) && s.copy == Some(p)
    ensures FillInv(Perform(s, p, Close(how)), leg)
  {
  }

  lemma {:induction false} RunKeepsFillInv(s: Sys, steps: seq<Step>, leg: Leg)
    requires FillInv(s, leg)
    ensures FillInv(Run(s, steps), leg)
    decreases |steps|
  {
    if steps != [] {
      StepKeepsFillInv(s, steps[0], leg);
      RunKeepsFillInv(Next(s, steps[0]), steps[1..], leg);
    }
  }

  /** From any row, a market exit closes only after every outstanding leg was sold and its fill recorded. */
  lemma MarketExitNeedsEveryFill(row: Row, steps: seq<Step>, leg: Leg)
    requires row.pos.Book(leg).Outstanding() && Run(Start(row), steps).closedBy == Some(MarketExit)
    ensures Run(Start(row), steps).row.pos.Book(leg).exit.Some? && Run(Start(row), steps).SalesOf(leg).count >= 1
  {
    RunKeepsFillInv(Start(row), steps, leg);
  }

  /** From any row and over every run, unless a resolution closed it, an exit price is that of the leg's last fill. */
  lemma ExitPriceIsTheFills(row: Row, steps: seq<Step>, leg: Leg)
    requires row.pos.Book(leg).Outstanding() && Run(Start(row), steps).row.pos.Book(leg).exit.Some?
    requires Run(Start(row), steps).closedBy in {None, Some(MarketExit)}
    ensures PricedBy(Run(Start(row), steps).row.pos.Book(leg).exit.value, Run(Start(row), steps).SalesOf(leg).prices)
  {
    RunKeepsFillInv(Start(row), steps, leg);
  }

  // ── Overselling ───────────────────────────────────────────────────────

  /** The order size the handler will use does not exceed what the leg holds. */
  predicate Covers(quantity: real, b: LegBook) { b.Outstanding() ==> quantity <= b.held }

  predicate Covered(p: Pos) { Covers(p.quantity, p.yes) && Covers(p.quantity, p.no) }

  /** One leg: either untouched and still covered, or sold once within what it held. */
  ghost predicate LegOk(b0: LegBook, quantity: real, b: LegBook, t: Sales, closed: bool) {
    && 0.0 <= t.sold <= b0.held
    && (b0.exit.Some? ==> t.count == 0)
    && (t.count == 0 ==> t.sold == 0.0 && (!closed ==> b == b0))
    && (t.count > 0 ==> t.count == 1 && b.exit.Some?)
    && (!closed ==> b.exited == b0.exited + t.sold && b.held == b0.held - t.sold)
  }

  ghost predicate SaleInv(p0: Pos, s: Sys) {
    && Inv(s, p0.yes.Total(), p0.no.Total())
    && s.row.pos.quantity == p0.quantity
    && LegOk(p0.yes, p0.quantity, s.row.pos.yes, s.yes, s.row.pos.state.Closed?)
    && LegOk(p0.no, p0.quantity, s.row.pos.no, s.no, s.row.pos.state.Closed?)
    && (s.closedBy == Some(MarketExit) ==>
          && (p0.yes.Outstanding() ==> s.yes.count == 1)
          && (p0.no.Outstanding() ==> s.no.count == 1))
  }

  lemma SellStaysCovered(p0: Pos, s: Sys, p: Pos, leg: Leg, price: real, qty: real, refusal: string)
    requires Covered(p0) && SaleInv(p0, s) && s.copy == Some(p)
    requires p.state.Closing? && p.Holds(leg) && 0.0 < qty <= p.quantity
    ensures SaleInv(p0, AfterFill(s, p, leg, price, qty, refusal))
    ensures AfterFill(s, p, leg, price, qty, refusal).fails == s.fails
  {
    SellKeepsBooks(s, p, leg, price, qty, refusal, p0.yes.Total(), p0.no.Total());
    assert p.Book(leg) == p0.Book(leg);
    assert ExitFill(p, leg, price, qty).Some?;
  }

  lemma StepStaysCovered(p0: Pos, s: Sys, step: Step)
    requires Covered(p0) && SaleInv(p0, s) && !step.MonitorStart? && !step.DieAfterFill?
    ensures SaleInv(p0, Next(s, step))
  {
    StepKeepsBooks(s, step, p0.yes.Total(), p0.no.Total());
    match step
    case Reconcile(q) => if !s.row.pos.state.Closed? { PassKeepsBackedRows(s.row, q); }
    case Act(op) =>
      if s.copy.Some? && op.Sell? {
        var p := s.copy.value;
        if p.state.Closing? && p.Holds(op.leg) && 0.0 < op.qty <= p.quantity {
          SellStaysCovered(p0, s, p, op.leg, op.price, op.qty, op.refusal);
        }
      }
    case _ =>
  }

  lemma {:induction false} RunStaysCovered(p0: Pos, s: Sys, steps: seq<Step>)
    requires Covered(p0) && SaleInv(p0, s) && Calm(steps)
    ensures SaleInv(p0, Run(s, steps))
    decreases |steps|
  {
    if steps != [] {
      StepStaysCovered(p0, s, steps[0]);
      RunStaysCovered(p0, Next(s, steps[0]), steps[1..]);
    }
  }

  /**
   The books against the wallet: in every calm run from a covered row, until it is closed, each leg has exited
   exactly what was sold of it and holds exactly the rest.
   */
  lemma BooksFollowSales(row: Row, steps: seq<Step>, leg: Leg)
    requires Entered(row.pos) && NonNegative(row.pos) && row.pos.quantity > 0.0 && Covered(row.pos) && Calm(steps)
    requires !Run(Start(row), steps).row.pos.state.Closed?
    ensures var s := Run(Start(row), steps);
      && s.row.pos.Book(leg).exited == row.pos.Book(leg).exited + s.SalesOf(leg).sold
      && s.row.pos.Book(leg).held == row.pos.Book(leg).held - s.SalesOf(leg).sold
  {
    RunStaysCovered(row.pos, Start(row), steps);
  }

  /** After this run the leg has been sold at most once, and no more of it than was held. */
  predicate WithinHolding(row: Row, steps: seq<Step>, leg: Leg) {
    var t := Run(Start(row), steps).SalesOf(leg);
    t.count <= 1 && t.sold <= row.pos.Book(leg).held
  }

  ghost predicate NeverOversoldWhenCalm(row: Row) {
    forall steps: seq<Step>, leg: Leg :: Calm(steps) ==> WithinHolding(row, steps, leg)
  }

  /** The shortest run that sends a sell order for one leg. */
  function SellRun(p: Pos, leg: Leg): seq<Step> {
    (if p.state.Open? then [Load, Act(Ready)] else [Load]) + [Act(StartClosing), Act(Sell(leg, 1.0, p.quantity, ""))]
  }

  lemma SellRunSells(row: Row, leg: Leg)
    requires Entered(row.pos) && row.pos.quantity > 0.0 && row.pos.Book(leg).Outstanding()
    ensures Run(Start(row), SellRun(row.pos, leg)).SalesOf(leg).sold == row.pos.quantity
  {
    var steps := SellRun(row.pos, leg);
    var s0 := Start(row);
    var s1 := Next(s0, Load);
    if row.pos.state.Open? {
      var s2 := Next(s1, Act(Ready));
      var s3 := Next(s2, Act(StartClosing));
      RunFour(s0, steps[0], steps[1], steps[2], steps[3]);
      assert steps == [steps[0], steps[1], steps[2], steps[3]];
      assert s3.copy.value.Holds(leg);
    } else {
      var s2 := Next(s1, Act(StartClosing));
      RunFour(s0, Drop, steps[0], steps[1], steps[2]);
      assert Next(s0, Drop) == s0;
      assert [Drop, steps[0], steps[1], steps[2]][1..] == steps;
      assert s2.copy.value.Holds(leg);
    }
  }

  lemma RunFour(s: Sys, a: Step, b: Step, c: Step, d: Step)
    ensures Run(s, [a, b, c, d]) == Next(Next(Next(Next(s, a), b), c), d)
  {
    assert [a, b, c, d][1..] == [b, c, d] && [b, c, d][1..] == [c, d] && [c, d][1..] == [d] && [d][1..] == [];
    assert Run(Next(s, a), [b, c, d]) == Run(Next(Next(s, a), b), [c, d]);
    assert Run(Next(Next(s, a), b), [c, d]) == Run(Next(Next(Next(s, a), b), c), [d]);
  }

  /** No leg is ever sold twice or beyond its holding, in any calm run, exactly when the stored quantity is covered. */
  lemma OversellExact(row: Row)
    requires Entered(row.pos) && NonNegative(row.pos) && row.pos.quantity > 0.0
    ensures NeverOversoldWhenCalm(row) <==> Covered(row.pos)
  {
    if Covered(row.pos) {
      forall steps: seq<Step>, leg: Leg | Calm(steps) ensures WithinHolding(row, steps, leg) {
        RunStaysCovered(row.pos, Start(row), steps);
      }
    } else {
      var leg := if Covers(row.pos.quantity, row.pos.yes) then No else Yes;
      SellRunSells(row, leg);
      assert Calm(SellRun(row.pos, leg)) && !WithinHolding(row, SellRun(row.pos, leg), leg);
    }
  }

  /** On a covered position that sale is the only one, and within the holding. */
  lemma MarketExitSoldEveryHeldLeg(row: Row, steps: seq<Step>, leg: Leg)
    requires Entered(row.pos) && NonNegative(row.pos) && row.pos.quantity > 0.0 && Covered(row.pos)
    requires Run(Start(row), steps).closedBy == Some(MarketExit) && row.pos.Book(leg).Outstanding() && Calm(steps)
    ensures Run(Start(row), steps).SalesOf(leg).count == 1
    ensures Run(Start(row), steps).SalesOf(leg).sold <= row.pos.Book(leg).held
  {
    RunStaysCovered(row.pos, Start(row), steps);
  }

  // ── Partial exit fills ────────────────────────────────────────────────

  lemma {:induction false} RunKeepsClose(s: Sys, steps: seq<Step>)
    requires CloseIsFinal(s)
    ensures CloseIsFinal(Run(s, steps))
    decreases |steps|
  {
    if steps != [] {
      StepKeepsClose(s, steps[0]);
      RunKeepsClose(Next(s, steps[0]), steps[1..]);
    }
  }

  /** If this step records a fill of the leg, the fill takes all that the leg holds. */
  predicate FillIsComplete(s: Sys, step: Step, leg: Leg) {
    step.Act? && step.op.Sell? && step.op.leg == leg && s.copy.Some? && s.copy.value.state.Closing? && s.copy.value.Holds(leg)
    && 0.0 < step.op.qty <= s.copy.value.quantity
    ==> step.op.qty == s.copy.value.Book(leg).held
  }

  ghost predicate FillsAreComplete(s: Sys, steps: seq<Step>, leg: Leg)
    decreases |steps|
  {
    steps == [] || (FillIsComplete(s, steps[0], leg) && FillsAreComplete(Next(s, steps[0]), steps[1..], leg))
  }

  /** A leg with a recorded exit is not sold any more, so nothing is left to be incomplete. */
  lemma {:induction false} NothingLeftToFill(s: Sys, steps: seq<Step>, leg: Leg)
    requires ExitsSynced(s) && s.row.pos.Book(leg).exit.Some?
    ensures FillsAreComplete(s, steps, leg)
    decreases |steps|
  {
    if steps != [] {
      StepKeepsRecordedLeg(s, steps[0], leg);
      NothingLeftToFill(Next(s, steps[0]), steps[1..], leg);
    }
  }

  /** Until its one sale the leg is as it was; the sale takes everything exactly when its fill is complete. */
  lemma {:induction false} CompleteExactlyWhenSold(p0: Pos, s: Sys, steps: seq<Step>, leg: Leg)
    requires Covered(p0) && SaleInv(p0, s) && Calm(steps) && p0.Book(leg).Outstanding() && s.SalesOf(leg).count == 0
    ensures var s' := Run(s, steps);
      s'.SalesOf(leg).count > 0 ==> (FillsAreComplete(s, steps, leg) <==> s'.SalesOf(leg).sold == p0.Book(leg).held)
    decreases |steps|
  {
    if steps != [] {
      var s1 := Next(s, steps[0]);
      StepStaysCovered(p0, s, steps[0]);
      if s1.SalesOf(leg).count == 0 {
        NoSaleIsComplete(p0, s, steps[0], leg);
        CompleteExactlyWhenSold(p0, s1, steps[1..], leg);
      } else {
        SaleTakesQuantity(p0, s, steps[0], leg);
        RunKeepsRecordedLeg(s1, steps[1..], leg);
        NothingLeftToFill(s1, steps[1..], leg);
      }
    }
  }

  lemma NoSaleIsComplete(p0: Pos, s: Sys, step: Step, leg: Leg)
    requires SaleInv(p0, s) && s.SalesOf(leg).count == 0 && Next(s, step).SalesOf(leg).count == 0
    ensures FillIsComplete(s, step, leg)
  {
  }

  lemma SaleTakesQuantity(p0: Pos, s: Sys, step: Step, leg: Leg)
    requires Covered(p0) && SaleInv(p0, s) && !step.MonitorStart? && !step.DieAfterFill?
    requires p0.Book(leg).Outstanding() && s.SalesOf(leg).count == 0 && Next(s, step).SalesOf(leg).count > 0
    ensures var s1 := Next(s, step);
      && (FillIsComplete(s, step, leg) <==> s1.SalesOf(leg).sold == p0.Book(leg).held)
      && s1.row.pos.Book(leg).exit.Some? && ExitsSynced(s1)
  {
    var p := s.copy.value;
    SellStaysCovered(p0, s, p, step.op.leg, step.op.price, step.op.qty, step.op.refusal);
    assert p.Book(leg) == p0.Book(leg);
  }

  /**
   Every close books all that was held as exited, sold or not.  After a market exit of a covered position the
   booked exits of a leg equal what was sold of it exactly when every recorded fill of it was complete.
   */
  lemma BookedExitsExact(row: Row, steps: seq<Step>, leg: Leg)
    requires Entered(row.pos) && NonNegative(row.pos) && row.pos.quantity > 0.0 && Covered(row.pos) && Calm(steps)
    requires Run(Start(row), steps).closedBy == Some(MarketExit) && row.pos.Book(leg).Outstanding()
    ensures var s := Run(Start(row), steps);
      var booked := s.row.pos.Book(leg).exited - row.pos.Book(leg).exited;
      && booked == row.pos.Book(leg).held && booked >= s.SalesOf(leg).sold
      && (booked == s.SalesOf(leg).sold <==> FillsAreComplete(Start(row), steps, leg))
  {
    RunKeepsClose(Start(row), steps);
    BooksAreConserved(Start(row), steps, row.pos.yes.Total(), row.pos.no.Total());
    RunStaysCovered(row.pos, Start(row), steps);
    CompleteExactlyWhenSold(row.pos, Start(row), steps, leg);
  }

  /** Any partial fill of a single held leg is followed by such a close: the rest is booked as exited, unsold. */
  lemma PartialFillIsWrittenOff(row: Row, leg: Leg, price: real, qty: real, refusal: string)
    requires row.pos.state.ExitReady? && row.pos.Book(leg).Outstanding()
    requires !row.pos.yes.Outstanding() || !row.pos.no.Outstanding()
    requires 0.0 < qty < row.pos.Book(leg).held && qty <= row.pos.quantity
    ensures var s := Run(Start(row), [Load, Act(StartClosing), Act(Sell(leg, price, qty, refusal)), Act(Close(MarketExit))]);
      && s.closedBy == Some(MarketExit) && s.SalesOf(leg).sold == qty
      && s.row.pos.Book(leg).exited - row.pos.Book(leg).exited - s.SalesOf(leg).sold == row.pos.Book(leg).held - qty > 0.0
  {
    RunFour(Start(row), Load, Act(StartClosing), Act(Sell(leg, price, qty, refusal)), Act(Close(MarketExit)));
    var s2 := Next(Next(Start(row), Load), Act(StartClosing));
    assert s2.copy == Some(row.pos.(state := Closing)) && s2.row.pos == row.pos.(state := Closing);
  }

  // ── Missing legs ──────────────────────────────────────────────────────

  ghost predicate Unpriced(s: Sys, leg: Leg) {
    && s.row.pos.Book(leg).entry <= 0.0 && s.SalesOf(leg).count == 0
    && (s.copy.Some? ==> s.copy.value.Book(leg).entry <= 0.0)
  }

  lemma StepKeepsUnpriced(s: Sys, step: Step, leg: Leg)
    requires Unpriced(s, leg)
    ensures Unpriced(Next(s, step), leg)
  {
    if step.MonitorStart? {
      MonitorFrame(s.row, step.between);
    }
  }

  /** A leg without an entry price is not sold in any run. */
  lemma {:induction false} UnpricedLegIsNeverSold(s: Sys, steps: seq<Step>, leg: Leg)
    requires Unpriced(s, leg)
    ensures Unpriced(Run(s, steps), leg)
    decreases |steps|
  {
    if steps != [] {
      StepKeepsUnpriced(s, steps[0], leg);
      UnpricedLegIsNeverSold(Next(s, steps[0]), steps[1..], leg);
    }
  }

  // ── Retries ───────────────────────────────────────────────────────────

  /** Attempts are counted by failures, and every failure but the last has been requeued. */
  ghost predicate RetryInv(s: Sys, retries0: nat) {
    && s.row.pos.retries == retries0 + s.fails
    && s.fails == s.requeues + (if Failure(s.row.pos.state) then 1 else 0)
    && (s.requeues > 0 ==> retries0 + s.requeues < MAX_RETRY_ATTEMPTS)
    && (s.copy.Some? ==>
          && s.copy.value.retries == s.row.pos.retries && Failure(s.copy.value.state) == Failure(s.row.pos.state)
          && !s.copy.value.state.EntryFailed?)
  }

  lemma OpKeepsRetries(s: Sys, p: Pos, op: Op, retries0: nat)
    requires RetryInv(s, retries0) && s.copy == Some(p)
    ensures RetryInv(Perform(s, p, op), retries0)
  {
  }

  lemma StepKeepsRetries(s: Sys, step: Step, retries0: nat)
    requires RetryInv(s, retries0)
    ensures RetryInv(Next(s, step), retries0)
  {
    match step
    case Reconcile(q) => assert SameButMarks(s.row.pos, Pass(s.row, q).pos);
    case MonitorStart(between) => MonitorFrame(s.row, between);
    case Act(op) => if s.copy.Some? { OpKeepsRetries(s, s.copy.value, op, retries0); }
    case _ =>
  }

  /** A fresh mark reaches the stored row, and only while the position is Open. */
  lemma MarkIsStored(s: Sys, p: Pos, pnl: real)
    requires s.copy == Some(p)
    ensures var s' := Next(s, Act(Mark(pnl)));
      if p.state == Open then s'.row.pos.unrealized == pnl && s'.copy == Some(p.(unrealized := pnl)) else s' == s
  {
  }

  /** A failed exit with attempts left can be sent again: the next sweep requeues it with both legs as they were. */
  lemma FailedExitIsRetried(s: Sys)
    requires s.copy.None? && s.row.pos.state == ExitFailed && s.row.pos.retries < MAX_RETRY_ATTEMPTS
    ensures var s' := Next(Next(s, Load), Act(Requeue));
      && s'.row.pos == s.row.pos.(state := ExitReady, reason := None) && s'.requeues == s.requeues + 1
  {
  }

  /** A new position is sent to exit at most three times, over every run, deaths and start-ups included. */
  lemma {:induction false} RetriesAreBounded(s: Sys, steps: seq<Step>)
    requires RetryInv(s, 0)
    ensures RetryInv(Run(s, steps), 0)
    ensures Run(s, steps).requeues <= 2 && Run(s, steps).fails <= 3
    decreases |steps|
  {
    if steps != [] {
      StepKeepsRetries(s, steps[0], 0);
      RetriesAreBounded(Next(s, steps[0]), steps[1..]);
    }
  }
}
