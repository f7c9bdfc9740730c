/**
 `PositionService`: in-memory positions mutated field by field, then written through the repository.

 Every method is proved against the function of the same name in `Positions`, and against `Saved` for
 what reaches the database.  Repository calls succeed here; trade events are left out.
 */
module PositionService {
  import opened FailureText
  import opened Positions

  function Saved(rows: map<nat, Row>, id: nat, p: Pos): map<nat, Row> {
    if id in rows then rows[id := Persist(rows[id], p)] else rows
  }

  class Position {
    const id: nat
    var state: State
    var quantity: real
    var yes: LegBook
    var no: LegBook
    var reason: Option<FailureReason>
    var retries: nat
    var unrealized: real
    var winner: Option<Leg>

    function Value(): Pos
      reads this
    {
      Pos(state, quantity, yes, no, reason, retries, unrealized, winner)
    }

    /** `row_to_position` */
    constructor (id: nat, p: Pos)
      ensures this.id == id && Value() == p
    {
      this.id := id;
      state, quantity, yes, no := p.state, p.quantity, p.yes, p.no;
      reason, retries, unrealized, winner := p.reason, p.retries, p.unrealized, p.winner;
    }
  }

  class Service {
    var rows: map<nat, Row>

    constructor (initial: map<nat, Row>)
      ensures rows == initial
    {
      rows := initial;
    }

    method Update(p: Position)
      modifies this
      ensures rows == Saved(old(rows), p.id, p.Value())
    {
      if p.id in rows {
        rows := rows[p.id := Persist(rows[p.id], p.Value())];
      }
    }

    method CreatePosition(id: nat, yesPrice: real, noPrice: real, quantity: real) returns (p: Position)
      requires id !in rows
      modifies this
      ensures fresh(p) && p.id == id && p.Value() == NewPos(yesPrice, noPrice, quantity)
      ensures rows == old(rows)[id := Insert(p.Value())]
    {
      p := new Position(id, NewPos(yesPrice, noPrice, quantity));
      rows := rows[id := Insert(p.Value())];
    }

    method RecordEntryFill(p: Position, leg: Leg, price: real, qty: real)
      modifies this, p
      ensures p.Value() == EntryFill(old(p.Value()), leg, price, qty)
      ensures rows == Saved(old(rows), p.id, p.Value())
    {
      p.quantity := qty;
      match leg {
        case Yes => p.yes := p.yes.(entry := price, held := p.yes.held + qty);
        case No => p.no := p.no.(entry := price, held := p.no.held + qty);
      }
      Update(p);
    }

    /** Shared ending of every fallible mutation: on error neither the object nor the row has changed. */
    twostate predicate Did(p: Position, target: Option<Pos>, ok: bool)
      reads this, p
    {
      && ok == target.Some?
      && p.Value() == (if ok then target.value else old(p.Value()))
      && rows == (if ok then Saved(old(rows), p.id, p.Value()) else old(rows))
    }

    method MarkOpen(p: Position) returns (ok: bool)
      modifies this, p
      ensures Did(p, Positions.MarkOpen(old(p.Value())), ok)
    {
      if p.state != Pending { return false; }
      p.state := Open;
      Update(p);
      ok := true;
    }

    method MarkEntryFailed(p: Position, reason: FailureReason)
      modifies this, p
      ensures Did(p, Some(Positions.MarkEntryFailed(old(p.Value()), reason)), true)
    {
      p.state, p.reason := EntryFailed, Some(reason);
      Update(p);
    }

    method MarkExitReady(p: Position) returns (ok: bool)
      modifies this, p
      ensures Did(p, Positions.MarkExitReady(old(p.Value())), ok)
    {
      if p.state != Open { return false; }
      p.state := ExitReady;
      Update(p);
      ok := true;
    }

    method MarkClosing(p: Position) returns (ok: bool)
      modifies this, p
      ensures Did(p, Positions.MarkClosing(old(p.Value())), ok)
    {
      if p.state != ExitReady { return false; }
      p.state := Closing;
      Update(p);
      ok := true;
    }

    /** Quantity is validated before anything is written, so price and quantity change together or not at all. */
    method RecordExitFill(p: Position, leg: Leg, price: real, qty: real) returns (ok: bool)
      modifies this, p
      ensures Did(p, ExitFill(old(p.Value()), leg, price, qty), ok)
    {
      match leg {
        case Yes =>
          if qty > p.yes.held { return false; }
          if p.yes.entry <= 0.0 || p.yes.exit.Some? || p.state == Closed || p.state == EntryFailed { return false; }
          p.yes := p.yes.(exit := Some(price));
          p.yes := p.yes.(held := p.yes.held - qty, exited := p.yes.exited + qty);
        case No =>
          if qty > p.no.held { return false; }
          if p.no.entry <= 0.0 || p.no.exit.Some? || p.state == Closed || p.state == EntryFailed { return false; }
          p.no := p.no.(exit := Some(price));
          p.no := p.no.(held := p.no.held - qty, exited := p.no.exited + qty);
      }
      Update(p);
      ok := true;
    }

    method ClosePosition(p: Position, how: CloseMethod) returns (ok: bool)
      modifies this, p
      ensures Did(p, Positions.ClosePosition(old(p.Value()), how), ok)
    {
      if p.state == Closed || p.state == EntryFailed { return false; }
      match how {
        case MarketExit =>
          if p.yes.Outstanding() || p.no.Outstanding() { return false; }
        case ResolutionWithWinner(yesWins) =>
          if p.yes.Outstanding() { p.yes := p.yes.(exit := Some(Payout(yesWins))); }
          if p.no.Outstanding() { p.no := p.no.(exit := Some(Payout(!yesWins))); }
          p.winner := Some(if yesWins then Yes else No);
        case ResolutionConservative =>
      }
      p.state, p.unrealized := Closed, 0.0;
      p.yes := p.yes.(exited := p.yes.exited + p.yes.held);
      p.no := p.no.(exited := p.no.exited + p.no.held);
      p.yes := p.yes.(held := 0.0);
      p.no := p.no.(held := 0.0);
      Update(p);
      ok := true;
    }

    method MarkExitFailed(p: Position, reason: FailureReason)
      modifies this, p
      ensures Did(p, Some(Positions.MarkExitFailed(old(p.Value()), reason)), true)
    {
      p.state, p.reason, p.retries := ExitFailed, Some(reason), p.retries + 1;
      Update(p);
    }

    method AttemptExitRecovery(p: Position) returns (recovered: bool)
      modifies this, p
      ensures Did(p, ExitRecovery(old(p.Value())), recovered)
    {
      if p.state != ExitFailed || p.retries >= MAX_RETRY_ATTEMPTS { return false; }
      p.state, p.reason := ExitReady, None;
      Update(p);
      recovered := true;
    }

    method TransitionOneLegged(p: Position, held: Leg, message: string) returns (ok: bool)
      modifies this, p
      ensures Did(p, OneLeggedToExitReady(old(p.Value()), held, message), ok)
    {
      if p.state != Pending && p.state != EntryFailed { return false; }
      match held {
        case Yes => p.no := p.no.(entry := 0.0, held := 0.0);
        case No => p.yes := p.yes.(entry := 0.0, held := 0.0);
      }
      p.state := ExitReady;
      p.reason := Some(OneLeggedEntry(if held.Yes? then "yes" else "no", message));
      Update(p);
      ok := true;
    }
  }

  /** Saving twice is saving the last value: nothing of an intermediate version survives. */
  lemma LastSaveWins(rows: map<nat, Row>, id: nat, p: Pos, q: Pos)
    ensures Saved(Saved(rows, id, p), id, q) == Saved(rows, id, q)
  {
    if id in rows {
      assert rows[id := Persist(rows[id], p)][id := Persist(rows[id], q)] == rows[id := Persist(rows[id], q)];
    }
  }
}
