/**
 A position, its database row, and every mutation `PositionService` can make to it, as functions.

 The small methods are those of crates/polymarket-core/src/types/position.rs; `Persist` is the
 UPDATE statement of crates/polymarket-core/src/db/positions.rs, which writes every mutable column
 except `quantity` and the two entry prices.
 */
module Positions {
  import opened FailureText

  datatype Option<+T> = None | Some(value: T)

  datatype State = Pending | Open | ExitReady | Closing | Closed | EntryFailed | ExitFailed | Stalled

  const MAX_RETRY_ATTEMPTS: nat := 3

  /** One leg's entry price, recorded exit price, and the quantities held and already exited. */
  datatype LegBook = LegBook(entry: real, exit: Option<real>, held: real, exited: real) {
    function Total(): real { held + exited }

    /** Entered and not yet sold, as the code infers it from prices. */
    predicate Outstanding() { entry > 0.0 && exit.None? }

    /** What is left on the books moves to exited (all three ways of closing do this). */
    function Flattened(): LegBook { this.(held := 0.0, exited := exited + held) }
  }

  datatype Pos = Pos(
    state: State,
    quantity: real,
    yes: LegBook,
    no: LegBook,
    reason: Option<FailureReason>,
    retries: nat,
    unrealized: real,
    winner: Option<Leg>)
  {
    function Book(leg: Leg): LegBook { if leg.Yes? then yes else no }

    function WithBook(leg: Leg, b: LegBook): Pos {
      if leg.Yes? then this.(yes := b) else this.(no := b)
    }

    /** `held_outcomes`, one leg at a time. */
    predicate Holds(leg: Leg) { !state.Closed? && Book(leg).Outstanding() }

    predicate HasFullPair() {
      if yes.held > 0.0 || no.held > 0.0 then yes.held > 0.0 && no.held > 0.0
      else Holds(Yes) && Holds(No)
    }

    predicate OneLeggedEntryFail() { state.EntryFailed? && reason.Some? && OneLeggedReason(reason.value) }

    predicate PersistAsOpen() { !state.Closed? && (state.EntryFailed? ==> OneLeggedEntryFail()) }

    predicate Active() { !state.Closed? && !state.EntryFailed? }
  }

  datatype CloseMethod = MarketExit | ResolutionWithWinner(yesWins: bool) | ResolutionConservative

  function NewPos(yesPrice: real, noPrice: real, quantity: real): Pos {
    Pos(Pending, quantity, LegBook(yesPrice, None, 0.0, 0.0), LegBook(noPrice, None, 0.0, 0.0),
        None, 0, 0.0, None)
  }

  // ── Mutations; None is the error return ───────────────────────────────

  function EntryFill(p: Pos, leg: Leg, price: real, qty: real): Pos {
    p.(quantity := qty).WithBook(leg, p.Book(leg).(entry := price, held := p.Book(leg).held + qty))
  }

  function MarkOpen(p: Pos): Option<Pos> {
    if p.state.Pending? then Some(p.(state := Open)) else None
  }

  function MarkEntryFailed(p: Pos, reason: FailureReason): Pos {
    p.(state := EntryFailed, reason := Some(reason))
  }

  function MarkExitReady(p: Pos): Option<Pos> {
    if p.state.Open? then Some(p.(state := ExitReady)) else None
  }

  function MarkClosing(p: Pos): Option<Pos> {
    if p.state.ExitReady? then Some(p.(state := Closing)) else None
  }

  /** The over-fill guard comes first, then the refusals of `record_*_exit_fill`. */
  function ExitFill(p: Pos, leg: Leg, price: real, qty: real): Option<Pos> {
    var b := p.Book(leg);
    if qty > b.held || b.entry <= 0.0 || b.exit.Some? || !p.Active() then None
    else Some(p.WithBook(leg, b.(exit := Some(price), held := b.held - qty, exited := b.exited + qty)))
  }

  function MarkExitFailed(p: Pos, reason: FailureReason): Pos {
    p.(state := ExitFailed, reason := Some(reason), retries := p.retries + 1)
  }

  function ExitRecovery(p: Pos): Option<Pos> {
    if p.state.ExitFailed? && p.retries < MAX_RETRY_ATTEMPTS
    then Some(p.(state := ExitReady, reason := None)) else None
  }

  function Settled(b: LegBook, payout: real): LegBook {
    if b.Outstanding() then b.(exit := Some(payout)) else b
  }

  function Payout(wins: bool): real { if wins then 1.0 else 0.0 }

  function ClosePosition(p: Pos, how: CloseMethod): Option<Pos> {
    if !p.Active() then None
    else
      var priced := match how {
        case ResolutionWithWinner(yesWins) =>
          p.(yes := Settled(p.yes, Payout(yesWins)), no := Settled(p.no, Payout(!yesWins)),
             winner := Some(if yesWins then Yes else No))
        case _ => p
      };
      if how.MarketExit? && (priced.yes.Outstanding() || priced.no.Outstanding()) then None
      else Some(priced.(state := Closed, unrealized := 0.0,
                        yes := priced.yes.Flattened(), no := priced.no.Flattened()))
  }

  /** Force a one-legged entry to ExitReady, clearing the leg that was not bought. */
  function OneLeggedToExitReady(p: Pos, held: Leg, message: string): Option<Pos> {
    if !p.state.Pending? && !p.state.EntryFailed? then None
    else
      var missing := if held.Yes? then No else Yes;
      var cleared := p.WithBook(missing, p.Book(missing).(entry := 0.0, held := 0.0));
      Some(cleared.(state := ExitReady,
                    reason := Some(OneLeggedEntry(if held.Yes? then "yes" else "no", message))))
  }

  // ── What the mutations mean ───────────────────────────────────────────

  /** A recorded fill: its price on record, its quantity moved from held to exited, the other leg untouched. */
  lemma ExitFillMovesInventory(p: Pos, leg: Leg, price: real, qty: real)
    requires ExitFill(p, leg, price, qty).Some?
    ensures var p' := ExitFill(p, leg, price, qty).value;
      && p'.Book(leg).exit == Some(price) && p'.Book(leg).entry == p.Book(leg).entry
      && p'.Book(leg).held == p.Book(leg).held - qty >= 0.0 && p'.Book(leg).exited == p.Book(leg).exited + qty
      && (if leg.Yes? then p'.no == p.no else p'.yes == p.yes)
      && p'.state == p.state && p'.quantity == p.quantity && p'.reason == p.reason && p'.retries == p.retries
  {
  }

  /** A fill is refused exactly when it exceeds the holding, or its leg is not outstanding, or the position is over. */
  lemma ExitFillRefusedExact(p: Pos, leg: Leg, price: real, qty: real)
    ensures ExitFill(p, leg, price, qty).None? <==>
      || qty > p.Book(leg).held || p.Book(leg).entry <= 0.0 || p.Book(leg).exit.Some?
      || p.state == Closed || p.state == EntryFailed
  {
  }

  /** An entry fill: price and quantity of the fill, the holding grown by it, the other leg untouched. */
  lemma EntryFillBuysInventory(p: Pos, leg: Leg, price: real, qty: real)
    ensures var p' := EntryFill(p, leg, price, qty);
      && p'.quantity == qty && p'.Book(leg).entry == price && p'.Book(leg).held == p.Book(leg).held + qty
      && p'.Book(leg).exited == p.Book(leg).exited && p'.Book(leg).exit == p.Book(leg).exit
      && (if leg.Yes? then p'.no == p.no else p'.yes == p.yes) && p'.state == p.state
  {
  }

  /**
   What a resolution with a winner pays: every leg still outstanding exits at one if its side won and at zero if it
   lost, a leg sold before keeps its price, and nothing stays held.
   */
  lemma ResolutionPays(p: Pos, yesWins: bool, leg: Leg)
    requires p.state != Closed && p.state != EntryFailed
    ensures var closed := ClosePosition(p, ResolutionWithWinner(yesWins));
      && closed.Some? && closed.value.state == Closed && closed.value.unrealized == 0.0
      && (p.Book(leg).Outstanding() ==>
            closed.value.Book(leg).exit == Some(if (leg == Yes) == yesWins then 1.0 else 0.0))
      && (!p.Book(leg).Outstanding() ==> closed.value.Book(leg).exit == p.Book(leg).exit)
      && closed.value.winner == Some(if yesWins then Yes else No)
      && closed.value.Book(leg).held == 0.0 && closed.value.Book(leg).exited == p.Book(leg).exited + p.Book(leg).held
  {
  }

  /** The other two closes set no price; a market exit is refused exactly while a leg is unsold. */
  lemma OtherClosesKeepPrices(p: Pos, how: CloseMethod, leg: Leg)
    requires p.state != Closed && p.state != EntryFailed && !how.ResolutionWithWinner?
    ensures ClosePosition(p, how).None? <==>
      how == MarketExit && ((p.yes.entry > 0.0 && p.yes.exit.None?) || (p.no.entry > 0.0 && p.no.exit.None?))
    ensures ClosePosition(p, how).Some? ==>
      var p' := ClosePosition(p, how).value;
      && p'.state == Closed && p'.unrealized == 0.0 && p'.winner == p.winner
      && p'.Book(leg).exit == p.Book(leg).exit
      && p'.Book(leg).held == 0.0 && p'.Book(leg).exited == p.Book(leg).exited + p.Book(leg).held
  {
  }

  /** The lifecycle: each move is possible from one state only, and changes nothing else. */
  lemma LifecycleLaw(p: Pos)
    ensures MarkOpen(p) == if p.state == Pending then Some(p.(state := Open)) else None
    ensures MarkExitReady(p) == if p.state == Open then Some(p.(state := ExitReady)) else None
    ensures MarkClosing(p) == if p.state == ExitReady then Some(p.(state := Closing)) else None
    ensures var walked := MarkClosing(MarkExitReady(MarkOpen(p.(state := Pending)).value).value);
      walked == Some(p.(state := Closing))
  {
  }

  /** How failures and the requeue are written down, and what they leave alone. */
  lemma FailuresAreOnRecord(p: Pos, reason: FailureReason)
    ensures MarkEntryFailed(p, reason) == p.(state := EntryFailed, reason := Some(reason))
    ensures var f := MarkExitFailed(p, reason);
      && f.state == ExitFailed && f.reason == Some(reason) && f.retries == p.retries + 1
      && f.yes == p.yes && f.no == p.no && f.quantity == p.quantity
    ensures p.state == ExitFailed && p.retries < 3 ==>
      ExitRecovery(p) == Some(p.(state := ExitReady, reason := None))
    ensures p.state != ExitFailed || p.retries >= 3 ==> ExitRecovery(p).None?
  {
  }

  /** The one-legged transition: the held leg stays as it is, the other is cleared, and the reason says which is held. */
  lemma OneLeggedTransitionLaw(p: Pos, held: Leg, message: string)
    requires p.state == Pending || p.state == EntryFailed
    ensures var t := OneLeggedToExitReady(p, held, message);
      && t.Some? && t.value.state == ExitReady && t.value.Book(held) == p.Book(held)
      && t.value.Book(if held == Yes then No else Yes).entry == 0.0
      && t.value.Book(if held == Yes then No else Yes).held == 0.0
      && t.value.reason == Some(OneLeggedEntry(match held case Yes => "yes" case No => "no", message))
      && t.value.quantity == p.quantity && t.value.retries == p.retries
  {
  }

  /** The conservative close is for pairs: both sides held, or, on rows without quantities, both outstanding. */
  lemma FullPairMeansBothSides(p: Pos)
    ensures p.HasFullPair() && (p.yes.held > 0.0 || p.no.held > 0.0) ==> p.yes.held > 0.0 && p.no.held > 0.0
    ensures p.yes.held > 0.0 && p.no.held > 0.0 ==> p.HasFullPair()
    ensures p.yes.held <= 0.0 && p.no.held <= 0.0 && p.state != Closed ==>
      (p.HasFullPair() <==> p.yes.entry > 0.0 && p.yes.exit.None? && p.no.entry > 0.0 && p.no.exit.None?)
  {
  }

  // ── The stored row ────────────────────────────────────────────────────

  datatype Row = Row(pos: Pos, isOpen: bool, price: Option<real>)

  function Insert(p: Pos): Row { Row(p, p.PersistAsOpen(), None) }

  /** `PositionRepository::update`: quantity and both entry prices keep their stored values. */
  function Persist(row: Row, mem: Pos): Row {
    Row(mem.(quantity := row.pos.quantity,
             yes := mem.yes.(entry := row.pos.yes.entry),
             no := mem.no.(entry := row.pos.no.entry)),
        mem.PersistAsOpen(), row.price)
  }

  /** The CHECK constraints of migration 060. */
  ghost predicate NonNegative(p: Pos) {
    p.yes.held >= 0.0 && p.no.held >= 0.0 && p.yes.exited >= 0.0 && p.no.exited >= 0.0
  }

  /** A new position and its row: Pending, open, priced as asked, nothing held, nothing exited, no attempt made. */
  lemma NewRowShows(yesPrice: real, noPrice: real, quantity: real)
    ensures var r := Insert(NewPos(yesPrice, noPrice, quantity));
      && r.pos.state == Pending && r.isOpen && r.price.None? && r.pos.quantity == quantity
      && r.pos.yes == LegBook(yesPrice, None, 0.0, 0.0) && r.pos.no == LegBook(noPrice, None, 0.0, 0.0)
      && r.pos.reason.None? && r.pos.retries == 0 && r.pos.winner.None?
  {
  }

  /**
   What a stored row shows after any save: quantity and entry prices of the insert, everything else of the object;
   open unless the object is Closed or a plain failed entry.
   */
  lemma SavedRowShows(row: Row, mem: Pos)
    ensures var r := Persist(row, mem);
      && r.pos.quantity == row.pos.quantity && r.pos.yes.entry == row.pos.yes.entry && r.pos.no.entry == row.pos.no.entry
      && r.pos.state == mem.state && r.pos.reason == mem.reason && r.pos.retries == mem.retries
      && r.pos.unrealized == mem.unrealized && r.pos.winner == mem.winner
      && r.pos.yes.held == mem.yes.held && r.pos.yes.exited == mem.yes.exited && r.pos.yes.exit == mem.yes.exit
      && r.pos.no.held == mem.no.held && r.pos.no.exited == mem.no.exited && r.pos.no.exit == mem.no.exit
      && (r.isOpen <==> mem.state != Closed && (mem.state == EntryFailed ==> mem.OneLeggedEntryFail()))
      && r.price == row.price
  {
  }
}
