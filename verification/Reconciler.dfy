/**
 The position reconciler: one CASE-driven, guarded UPDATE per candidate row.

 Column expressions follow crates/api-server/src/position_reconciler.rs; timestamps are left out.
 */
module Reconciler {
  import opened FailureText
  import opened Positions

  /** The market snapshot joined to a position; None is SQL NULL. */
  datatype Quote = Quote(yes: Option<real>, no: Option<real>)

  predicate Candidate(p: Pos) { !p.state.Pending? && !p.state.Closed? }

  /** `one_legged_entry_failed` */
  predicate HiddenOneLegged(p: Pos) {
    p.state.EntryFailed? && p.reason.Some? && OneLeggedText(p.reason.value)
  }

  /** `exit_failure_with_live_exposure` */
  predicate LiveFailure(p: Pos) {
    p.state.ExitFailed? &&
    ((p.reason.Some? && LiveExposureText(p.reason.value)) || p.yes.exit.Some? || p.no.exit.Some?)
  }

  predicate DeadFailure(p: Pos) { p.state.ExitFailed? && !LiveFailure(p) }

  predicate MarksYes(p: Pos) {
    HiddenOneLegged(p) || (!DeadFailure(p) && p.yes.Outstanding())
  }

  predicate MarksNo(p: Pos) {
    !HiddenOneLegged(p) && !DeadFailure(p) && p.no.Outstanding()
  }

  function Coalesce(quote: Option<real>, fallback: real): real {
    if quote.Some? then quote.value else fallback
  }

  function MarkPrice(p: Pos, q: Quote): real {
    (if MarksYes(p) then Coalesce(q.yes, p.yes.entry) else 0.0) +
    (if MarksNo(p) then Coalesce(q.no, p.no.entry) else 0.0)
  }

  function MarkCost(p: Pos): real {
    (if MarksYes(p) then p.yes.entry else 0.0) + (if MarksNo(p) then p.no.entry else 0.0)
  }

  function EffectivePrice(row: Row, q: Quote): Option<real> {
    if MarksYes(row.pos) || MarksNo(row.pos) then Some(MarkPrice(row.pos, q)) else row.price
  }

  function EffectivePnl(p: Pos, q: Quote): real {
    if MarksYes(p) || MarksNo(p) then p.quantity * (MarkPrice(p, q) - MarkCost(p))
    else if p.state.EntryFailed? then 0.0
    else p.unrealized
  }

  predicate EffectiveOpen(p: Pos) {
    if p.state.EntryFailed? then HiddenOneLegged(p) else !DeadFailure(p)
  }

  function EffectiveState(p: Pos): State {
    if HiddenOneLegged(p) then ExitFailed
    else if DeadFailure(p) then EntryFailed
    else p.state
  }

  function SyncedHeld(held: real, marked: bool, quantity: real, state: State): real {
    if state.Closed? || state.EntryFailed? then 0.0
    else if marked && held == 0.0 then quantity
    else held
  }

  /** The SET clause. */
  function Rewrite(row: Row, q: Quote): Row {
    var p := row.pos;
    var state := EffectiveState(p);
    Row(p.(state := state,
           unrealized := EffectivePnl(p, q),
           yes := p.yes.(held := SyncedHeld(p.yes.held, MarksYes(p), p.quantity, state)),
           no := p.no.(held := SyncedHeld(p.no.held, MarksNo(p), p.quantity, state))),
        EffectiveOpen(p), EffectivePrice(row, q))
  }

  /** The WHERE clause. */
  predicate Guard(row: Row, q: Quote) {
    var p := row.pos;
    || row.price != EffectivePrice(row, q)
    || p.unrealized != EffectivePnl(p, q)
    || row.isOpen != EffectiveOpen(p)
    || p.state != EffectiveState(p)
    || (MarksYes(p) && p.yes.held == 0.0)
    || (MarksNo(p) && p.no.held == 0.0)
    || (EffectiveState(p) in {Closed, EntryFailed} && (p.yes.held > 0.0 || p.no.held > 0.0))
  }

  function Pass(row: Row, q: Quote): Row {
    if Candidate(row.pos) && Guard(row, q) then Rewrite(row, q) else row
  }

  /**
   Rows the reconciler rewrites although nothing changes: an outstanding leg with nothing held, on a
   row of size zero or a row whose held quantities are forced to zero anyway.
   */
  predicate IdleTouch(p: Pos) {
    (p.quantity == 0.0 || EffectiveState(p).EntryFailed?) &&
    ((MarksYes(p) && p.yes.held == 0.0) || (MarksNo(p) && p.no.held == 0.0))
  }

  /** The guard skips only rows on which the SET would change nothing, and touches no others but the idle ones. */
  lemma GuardIsExact(row: Row, q: Quote)
    requires Candidate(row.pos) && NonNegative(row.pos)
    ensures Guard(row, q) <==> Rewrite(row, q) != row || IdleTouch(row.pos)
  {
    var p, r := row.pos, Rewrite(row, q);
    if Guard(row, q) && r == row {
      assert r.pos.yes.held == p.yes.held && r.pos.no.held == p.no.held;
    }
    if !Guard(row, q) {
      assert r.pos.yes == p.yes && r.pos.no == p.no;
    }
  }

  // ── What the columns mean ─────────────────────────────────────────────

  /** After a pass a candidate row is open exactly when its state is neither Closed nor EntryFailed. */
  lemma OpenMeansActive(row: Row, q: Quote)
    requires Candidate(row.pos)
    ensures Pass(row, q).isOpen <==> Pass(row, q).pos.state != Closed && Pass(row, q).pos.state != EntryFailed
  {
  }

  /** Pending and Closed rows are never touched. */
  lemma PendingAndClosedAreLeftAlone(row: Row, q: Quote)
    requires row.pos.state == Pending || row.pos.state == Closed
    ensures Pass(row, q) == row
  {
  }

  /** A leg's mark: its quote, or its entry price without one. */
  predicate IsMark(price: real, entry: real, quote: Option<real>) {
    price == match quote { case Some(x) => x case None => entry }
  }

  /**
   The marks after a pass.  A live row is worth what its outstanding legs are quoted at, and its unrealised P&L is
   the position quantity times the difference to their entry prices; without an outstanding leg both stay.
   */
  lemma MarksOfLiveRow(row: Row, q: Quote, y: real, n: real)
    requires row.pos.state in {Open, ExitReady, Closing, Stalled} || LiveFailure(row.pos)
    requires IsMark(y, row.pos.yes.entry, q.yes) && IsMark(n, row.pos.no.entry, q.no)
    ensures var r, p := Pass(row, q), row.pos;
      && (p.yes.Outstanding() && p.no.Outstanding() ==>
            r.price == Some(y + n) && r.pos.unrealized == p.quantity * ((y + n) - (p.yes.entry + p.no.entry)))
      && (p.yes.Outstanding() && !p.no.Outstanding() ==>
            r.price == Some(y) && r.pos.unrealized == p.quantity * (y - p.yes.entry))
      && (!p.yes.Outstanding() && p.no.Outstanding() ==>
            r.price == Some(n) && r.pos.unrealized == p.quantity * (n - p.no.entry))
      && (!p.yes.Outstanding() && !p.no.Outstanding() ==> r.price == row.price && r.pos.unrealized == p.unrealized)
  {
    var p := row.pos;
    assert !DeadFailure(p) && !HiddenOneLegged(p);
    if p.yes.Outstanding() && p.no.Outstanding() { PnlOf(row, q, (y + n) - (p.yes.entry + p.no.entry)); }
    else if p.yes.Outstanding() { PnlOf(row, q, y - p.yes.entry); }
    else if p.no.Outstanding() { PnlOf(row, q, n - p.no.entry); }
  }

  /** A marked row's P&L after a pass, for the difference between its mark and its cost. */
  lemma PnlOf(row: Row, q: Quote, gain: real)
    requires Candidate(row.pos) && (MarksYes(row.pos) || MarksNo(row.pos))
    requires gain == MarkPrice(row.pos, q) - MarkCost(row.pos)
    ensures Pass(row, q).pos.unrealized == row.pos.quantity * gain
  {
    assert EffectivePnl(row.pos, q) == row.pos.quantity * gain;
  }

  /** A hidden one-legged row is marked by its YES leg alone; a dead failure keeps its marks and loses its state. */
  lemma MarksOfFailedRow(row: Row, q: Quote, y: real)
    requires IsMark(y, row.pos.yes.entry, q.yes)
    ensures HiddenOneLegged(row.pos) ==>
      var r := Pass(row, q);
      && r.price == Some(y) && r.pos.unrealized == row.pos.quantity * (y - row.pos.yes.entry) && r.pos.state == ExitFailed
    ensures DeadFailure(row.pos) ==>
      var r := Pass(row, q);
      && r.price == row.price && r.pos.unrealized == row.pos.unrealized && r.pos.state == EntryFailed && !r.isOpen
    ensures row.pos.state.EntryFailed? && !HiddenOneLegged(row.pos) && !row.pos.yes.Outstanding() && !row.pos.no.Outstanding()
      ==> Pass(row, q).pos.unrealized == 0.0 && Pass(row, q).price == row.price
  {
    if HiddenOneLegged(row.pos) { PnlOf(row, q, y - row.pos.yes.entry); }
  }

  // ── Settling ──────────────────────────────────────────────────────────

  /** Successive passes, one market snapshot each. */
  function Passes(row: Row, qs: seq<Quote>): Row
    decreases |qs|
  {
    if qs == [] then row else Passes(Pass(row, qs[0]), qs[1..])
  }

  lemma StateSettles(row: Row, q: Quote, q': Quote)
    ensures Pass(Pass(row, q), q').pos.state == Pass(row, q).pos.state
  {
  }

  /** The state a row has after one pass is the state it has after any further passes, at any prices. */
  lemma {:induction false} StateSettlesForGood(row: Row, qs: seq<Quote>)
    requires qs != []
    ensures Passes(row, qs).pos.state == Pass(row, qs[0]).pos.state
    decreases |qs|
  {
    if |qs| > 1 {
      StateSettles(row, qs[0], qs[1]);
      StateSettlesForGood(Pass(row, qs[0]), qs[1..]);
    } else {
      assert qs[1..] == [];
    }
  }

  lemma RowSettles(row: Row, q: Quote)
    ensures var twice := Pass(Pass(row, q), q); Pass(twice, q) == twice
  {
  }

  /** With prices unchanged, every further pass leaves the row as it was after two. */
  lemma {:induction false} RowSettlesForGood(row: Row, q: Quote, n: nat)
    ensures Passes(row, seq(n + 2, _ => q)) == Pass(Pass(row, q), q)
    decreases n
  {
    var qs := seq(n + 2, _ => q);
    assert qs[1..] == seq(n + 1, _ => q);
    if n == 0 {
      assert qs[1..][1..] == [];
      assert Passes(Pass(row, q), qs[1..]) == Passes(Pass(Pass(row, q), q), []);
    } else {
      RowSettlesForGood(Pass(row, q), q, n - 1);
      RowSettles(row, q);
    }
  }

  // ── What a pass does to inventory ─────────────────────────────────────

  /** A leg the prices say is held, with nothing on the books: what a pass will invent inventory for. */
  predicate Backed(b: LegBook) { b.Outstanding() ==> b.held > 0.0 }

  /** On a live row whose outstanding legs are all backed, a pass moves marks only. */
  lemma PassKeepsBackedRows(row: Row, q: Quote)
    requires NonNegative(row.pos) && Backed(row.pos.yes) && Backed(row.pos.no)
    requires row.pos.state in {Open, ExitReady, Closing, Stalled} || LiveFailure(row.pos)
    ensures Pass(row, q).pos == row.pos.(unrealized := Pass(row, q).pos.unrealized)
  {
    assert !DeadFailure(row.pos) && !HiddenOneLegged(row.pos);
    assert Rewrite(row, q).pos == row.pos.(unrealized := EffectivePnl(row.pos, q));
  }

  /** An unbacked leg of a live row receives the full position quantity out of nothing. */
  lemma PassInventsInventory(row: Row, q: Quote, leg: Leg)
    requires row.pos.state in {Open, ExitReady, Closing, Stalled} || LiveFailure(row.pos)
    requires row.pos.Book(leg).Outstanding() && row.pos.Book(leg).held == 0.0
    ensures Pass(row, q).pos.Book(leg) == row.pos.Book(leg).(held := row.pos.quantity)
  {
    assert Guard(row, q);
  }

  /** A failure the exit handler recorded is never demoted, and no held quantity is reduced. */
  lemma HandlerFailuresSurvive(row: Row, q: Quote, h: HandlerFailure)
    requires NonNegative(row.pos) && row.pos.quantity >= 0.0
    requires row.pos.state.ExitFailed? && row.pos.reason == Some(HandlerReason(h))
    ensures Pass(row, q).pos.state.ExitFailed?
    ensures Pass(row, q).pos.yes.held >= row.pos.yes.held && Pass(row, q).pos.no.held >= row.pos.no.held
  {
    HandlerReasonsAreLive(h);
  }

  /**
   A row left with the arb monitor's start-up failure is demoted, and its inventory written off, exactly when no
   leg has a recorded exit price.
   */
  lemma InterruptedFailureIsWrittenOff(row: Row, q: Quote)
    requires row.pos.state.ExitFailed? && row.pos.reason == Some(INTERRUPTED_CLOSING) && NonNegative(row.pos)
    ensures var p := Pass(row, q).pos;
      && (p.state.EntryFailed? <==> row.pos.yes.exit.None? && row.pos.no.exit.None?)
      && (p.state.EntryFailed? ==>
            && p.yes == row.pos.yes.(held := 0.0)
            && p.no == row.pos.no.(held := 0.0))
      && (!p.state.EntryFailed? ==> p.state.ExitFailed?)
  {
    InterruptedClosingIsNotLive();
    assert LiveFailure(row.pos) <==> row.pos.yes.exit.Some? || row.pos.no.exit.Some?;
    if DeadFailure(row.pos) {
      assert Guard(row, q);
    }
  }

  predicate Failure(state: State) { state in {EntryFailed, ExitFailed} }

  /** What no pass touches, on any row: sizes, prices, exits, attempts, and the kind of state. */
  predicate SameButMarks(p: Pos, p': Pos) {
    && p'.quantity == p.quantity && p'.retries == p.retries && p'.reason == p.reason
    && p' == p.(state := p'.state, unrealized := p'.unrealized,
                yes := p.yes.(held := p'.yes.held), no := p.no.(held := p'.no.held))
    && (p'.state == p.state || (Failure(p.state) && Failure(p'.state)))
  }

  lemma {:induction false} PassesFrame(row: Row, qs: seq<Quote>)
    ensures SameButMarks(row.pos, Passes(row, qs).pos)
    decreases |qs|
  {
    if qs != [] {
      assert SameButMarks(row.pos, Pass(row, qs[0]).pos);
      PassesFrame(Pass(row, qs[0]), qs[1..]);
    }
  }

  /** Any number of passes over a live row whose outstanding legs are all backed moves marks only. */
  lemma {:induction false} PassesKeepBackedRows(row: Row, qs: seq<Quote>)
    requires NonNegative(row.pos) && Backed(row.pos.yes) && Backed(row.pos.no)
    requires row.pos.state in {Open, ExitReady, Closing, Stalled} || LiveFailure(row.pos)
    ensures Passes(row, qs).pos == row.pos.(unrealized := Passes(row, qs).pos.unrealized)
    decreases |qs|
  {
    if qs != [] {
      PassKeepsBackedRows(row, qs[0]);
      PassesKeepBackedRows(Pass(row, qs[0]), qs[1..]);
    }
  }

  /** A demoted row stays as it is, without inventory. */
  lemma {:induction false} DemotedStays(row: Row, qs: seq<Quote>)
    requires row.pos.state.EntryFailed? && !HiddenOneLegged(row.pos) && row.pos.yes.held == 0.0 && row.pos.no.held == 0.0
    ensures Passes(row, qs).pos == row.pos.(unrealized := Passes(row, qs).pos.unrealized)
    decreases |qs|
  {
    if qs != [] {
      DemotedStays(Pass(row, qs[0]), qs[1..]);
    }
  }

  /**
   A hidden one-legged entry is promoted in the first pass with its YES leg only, and the second pass
   gives the NO leg that was never bought the full position quantity.
   */
  lemma HiddenOneLeggedGrowsPhantomLeg(row: Row, q: Quote, q': Quote)
    requires HiddenOneLegged(row.pos) && NonNegative(row.pos)
    requires row.pos.no.Outstanding() && row.pos.no.held == 0.0
    ensures var once := Pass(row, q).pos; var twice := Pass(Pass(row, q), q').pos;
      once.state.ExitFailed? && once.no.held == 0.0 && twice.no.held == row.pos.quantity
  {
    assert Guard(row, q);
    PassInventsInventory(Pass(row, q), q', No);
  }

  // ── The cycle over the table ──────────────────────────────────────────

  /** `UPDATE … SET … WHERE … RETURNING id` over a keyed table. */
  method UpdateWhere<V>(rows: map<nat, V>, cond: (nat, V) -> bool, value: (nat, V) -> V)
      returns (result: map<nat, V>, touched: set<nat>)
    ensures result.Keys == rows.Keys
    ensures forall id :: id in rows ==>
      result[id] == if cond(id, rows[id]) then value(id, rows[id]) else rows[id]
    ensures forall id :: id in touched <==> id in rows && cond(id, rows[id])
  {
    result, touched := rows, {};
    var todo := rows.Keys;
    while todo != {}
      invariant result.Keys == rows.Keys && todo <= rows.Keys
      invariant forall id :: id in todo ==> result[id] == rows[id]
      invariant forall id :: id in rows && id !in todo ==>
        result[id] == if cond(id, rows[id]) then value(id, rows[id]) else rows[id]
      invariant forall id :: id in touched <==> id in rows && id !in todo && cond(id, rows[id])
      decreases todo
    {
      var id :| id in todo;
      todo := todo - {id};
      if cond(id, result[id]) {
        result := result[id := value(id, result[id])];
        touched := touched + {id};
      }
    }
  }

  function QuoteFor(quotes: map<nat, Quote>, id: nat): Quote {
    if id in quotes then quotes[id] else Quote(None, None)
  }

  predicate Written(row: Row, q: Quote) { Candidate(row.pos) && Guard(row, q) }

  function WrittenIds(rows: map<nat, Row>, quotes: map<nat, Quote>): set<nat> {
    set id | id in rows && Written(rows[id], QuoteFor(quotes, id))
  }

  class PositionTable {
    var rows: map<nat, Row>

    constructor (initial: map<nat, Row>)
      ensures rows == initial
    {
      rows := initial;
    }

    /** Every row takes exactly one pass against its own snapshot; the count is the number of rows written. */
    method ReconcileCycle(quotes: map<nat, Quote>) returns (updated: nat)
      modifies this
      ensures rows.Keys == old(rows).Keys
      ensures forall id :: id in rows && id in quotes ==> rows[id] == Pass(old(rows)[id], quotes[id])
      ensures forall id :: id in rows && id !in quotes ==> rows[id] == Pass(old(rows)[id], Quote(None, None))
      ensures updated == |WrittenIds(old(rows), quotes)|
    {
      var touched;
      rows, touched := UpdateWhere(rows,
                                   (id, row) => Written(row, QuoteFor(quotes, id)),
                                   (id, row) => Rewrite(row, QuoteFor(quotes, id)));
      assert touched == WrittenIds(old(rows), quotes);
      updated := |touched|;
    }
  }
}
