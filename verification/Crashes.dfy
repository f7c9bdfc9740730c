/**
 The ledger when processes die: what the arb monitor's start-up does to a position found in Closing, and exactly
 which of the ledger's guarantees survive deaths at any point, also between an order's fill and its record.

 Both processes start together: the monitor's start-up pass runs while the exit handler has no copy in hand.
 */
module Crashes {
  import opened FailureText
  import opened Positions
  import opened Reconciler
  import opened Ledger

  predicate HasExit(p: Pos) { p.yes.exit.Some? || p.no.exit.Some? }

  // ── One interrupted close ─────────────────────────────────────────────

  /** A dead failure is demoted by the first pass and stays demoted, without inventory. */
  lemma DeadFailureIsDemoted(row: Row, qs: seq<Quote>)
    requires row.pos.state.ExitFailed? && row.pos.reason == Some(INTERRUPTED_CLOSING) && NonNegative(row.pos)
    requires !HasExit(row.pos) && qs != []
    ensures var p := Passes(row, qs).pos;
      p.state.EntryFailed? && p.yes == row.pos.yes.(held := 0.0) && p.no == row.pos.no.(held := 0.0)
  {
    InterruptedFailureIsWrittenOff(row, qs[0]);
    InterruptedClosingIsNotLive();
    DemotedStays(Pass(row, qs[0]), qs[1..]);
  }

  lemma {:induction false} PassesConcat(row: Row, qs: seq<Quote>, q: Quote)
    ensures Passes(row, qs + [q]) == Pass(Passes(row, qs), q)
    decreases |qs|
  {
    if qs == [] {
      assert [] + [q] == [q] && [q][1..] == [];
      assert Passes(Pass(row, q), []) == Pass(row, q);
    } else {
      assert (qs + [q])[1..] == qs[1..] + [q];
      PassesConcat(Pass(row, qs[0]), qs[1..], q);
    }
  }

  /** The monitor's start-up on an interrupted close, with attempts left: only the attempt is counted. */
  lemma StartupRequeues(row: Row, between: seq<Quote>)
    requires row.pos.state.Closing? && row.pos.retries + 1 < MAX_RETRY_ATTEMPTS
    ensures MonitorStartup(row, between).pos == row.pos.(state := ExitReady, reason := None, retries := row.pos.retries + 1)
  {
    MonitorFrame(row, between);
  }

  /**
   An interrupted close, the monitor's start-up and a reconciler pass, whatever other passes come in between: the
   inventory is written off exactly when no leg has an exit price and the attempts are exhausted; with attempts
   left the position is back in ExitReady with both legs as they were.
   */
  lemma InterruptedCloseExact(row: Row, between: seq<Quote>, q: Quote)
    requires row.pos.state.Closing? && NonNegative(row.pos)
    ensures var p := Pass(MonitorStartup(row, between), q).pos;
      && (p.state.EntryFailed? <==> !HasExit(row.pos) && row.pos.retries + 1 >= MAX_RETRY_ATTEMPTS)
      && (p.state.EntryFailed? ==> p.yes == row.pos.yes.(held := 0.0) && p.no == row.pos.no.(held := 0.0))
      && (row.pos.retries + 1 < MAX_RETRY_ATTEMPTS ==>
            MonitorStartup(row, between).pos == row.pos.(state := ExitReady, reason := None, retries := row.pos.retries + 1))
  {
    if row.pos.retries + 1 < MAX_RETRY_ATTEMPTS {
      StartupRequeues(row, between);
      assert SameButMarks(MonitorStartup(row, between).pos, Pass(MonitorStartup(row, between), q).pos);
    } else {
      var failed := Persist(row, MonitorCopy(row.pos));
      PassesConcat(failed, between, q);
      if HasExit(row.pos) {
        LiveFailureStays(failed, between + [q]);
      } else {
        DeadFailureIsDemoted(failed, between + [q]);
      }
    }
  }

  lemma {:induction false} LiveFailureStays(row: Row, qs: seq<Quote>)
    requires row.pos.state.ExitFailed? && HasExit(row.pos)
    ensures Passes(row, qs).pos.state.ExitFailed?
    decreases |qs|
  {
    if qs != [] {
      LiveFailureStays(Pass(row, qs[0]), qs[1..]);
    }
  }

  // ── Conservation over all runs ────────────────────────────────────────

  ghost predicate ConservedInEveryRun(row: Row) {
    forall steps: seq<Step> :: SameTotals(row.pos, Run(Start(row), steps).row.pos)
  }

  /** With an exit price on record no failure counts as dead, so the monitor's start-up keeps the books. */
  lemma MonitorKeepsBooks(s: Sys, between: seq<Quote>, totalYes: real, totalNo: real)
    requires Inv(s, totalYes, totalNo) && s.copy.None? && HasExit(s.row.pos)
    ensures Inv(Next(s, MonitorStart(between)), totalYes, totalNo)
  {
    MonitorFrame(s.row, between);
    var mem := MonitorCopy(s.row.pos);
    if ExitRecovery(mem).None? {
      var marked := if s.row.pos.state.Closing? then Persist(s.row, mem) else s.row;
      assert marked.pos == mem;
      if s.row.pos.state.Closed? {
        ClosedStays(marked, between);
      } else {
        PassesKeepBackedRows(marked, between);
      }
    }
  }

  lemma {:induction false} ClosedStays(row: Row, qs: seq<Quote>)
    requires row.pos.state.Closed?
    ensures Passes(row, qs) == row
    decreases |qs|
  {
    if qs != [] {
      ClosedStays(row, qs[1..]);
    }
  }

  lemma {:induction false} BooksWithExitAreConserved(s: Sys, steps: seq<Step>, totalYes: real, totalNo: real)
    requires Inv(s, totalYes, totalNo) && HasExit(s.row.pos)
    ensures Inv(Run(s, steps), totalYes, totalNo)
    decreases |steps|
  {
    if steps != [] {
      if steps[0].MonitorStart? && s.copy.None? {
        MonitorKeepsBooks(s, steps[0].between, totalYes, totalNo);
      } else if !steps[0].MonitorStart? {
        StepKeepsBooks(s, steps[0], totalYes, totalNo);
      }
      StepKeepsRecordedLeg(s, steps[0], Yes);
      StepKeepsRecordedLeg(s, steps[0], No);
      BooksWithExitAreConserved(Next(s, steps[0]), steps[1..], totalYes, totalNo);
    }
  }

  /** A leg that was never bought: no price, nothing held. */
  ghost predicate NeverBought(s: Sys, leg: Leg, exited: real) {
    && Unpriced(s, leg)
    && s.row.pos.Book(leg).held == 0.0 && s.row.pos.Book(leg).exited == exited
    && (s.copy.Some? ==> s.copy.value.Book(leg).held == 0.0 && s.copy.value.Book(leg).exited == exited)
    && !HiddenOneLegged(s.row.pos) && (s.copy.Some? ==> !s.copy.value.state.EntryFailed?)
  }

  /** One pass puts nothing on such a leg, and the row it may demote does not become a hidden one-legged one. */
  lemma PassSparesLeg(row: Row, q: Quote, leg: Leg)
    requires row.pos.Book(leg).entry <= 0.0 && row.pos.Book(leg).held == 0.0 && !HiddenOneLegged(row.pos)
    ensures Pass(row, q).pos.Book(leg) == row.pos.Book(leg) && !HiddenOneLegged(Pass(row, q).pos)
  {
  }

  lemma {:induction false} PassesSpareLeg(row: Row, qs: seq<Quote>, leg: Leg)
    requires row.pos.Book(leg).entry <= 0.0 && row.pos.Book(leg).held == 0.0 && !HiddenOneLegged(row.pos)
    ensures Passes(row, qs).pos.Book(leg) == row.pos.Book(leg) && !HiddenOneLegged(Passes(row, qs).pos)
    decreases |qs|
  {
    if qs != [] {
      PassSparesLeg(row, qs[0], leg);
      PassesSpareLeg(Pass(row, qs[0]), qs[1..], leg);
    }
  }

  lemma OpSparesLeg(s: Sys, p: Pos, op: Op, leg: Leg, exited: real)
    requires NeverBought(s, leg, exited) && s.copy == Some(p)
    ensures NeverBought(Perform(s, p, op), leg, exited)
  {
  }

  lemma StepSparesLeg(s: Sys, step: Step, leg: Leg, exited: real)
    requires NeverBought(s, leg, exited)
    ensures NeverBought(Next(s, step), leg, exited)
  {
    StepKeepsUnpriced(s, step, leg);
    match step
    case Reconcile(q) => PassSparesLeg(s.row, q, leg);
    case Act(op) => if s.copy.Some? { OpSparesLeg(s, s.copy.value, op, leg, exited); }
    case MonitorStart(between) =>
      var mem := MonitorCopy(s.row.pos);
      var marked := if s.row.pos.state.Closing? then Persist(s.row, mem) else s.row;
      assert marked.pos == mem;
      PassesSpareLeg(marked, between, leg);
    case _ =>
  }

  /** No run, with deaths and start-ups, puts inventory on a leg that was never bought. */
  lemma {:induction false} NeverBoughtStaysEmpty(s: Sys, steps: seq<Step>, leg: Leg, exited: real)
    requires NeverBought(s, leg, exited)
    ensures NeverBought(Run(s, steps), leg, exited)
    decreases |steps|
  {
    if steps != [] {
      StepSparesLeg(s, steps[0], leg, exited);
      NeverBoughtStaysEmpty(Next(s, steps[0]), steps[1..], leg, exited);
    }
  }

  /** Start an exit, die before any order, restart. */
  function CrashCycle(): seq<Step> {
    [Load] + ([Act(Ready)] + ([Act(StartClosing)] + ([Drop] + ([MonitorStart([])] + []))))
  }

  lemma RunPrefix(s: Sys, step: Step, rest: seq<Step>)
    ensures Run(s, [step] + rest) == Run(Next(s, step), rest)
  {
    assert ([step] + rest)[1..] == rest;
  }

  /** The position once its close has started, and the handler's copy of it. */
  lemma ClosingStarted(s: Sys)
    requires s.copy.None? && Entered(s.row.pos)
    ensures var s' := Next(Next(Next(s, Load), Act(Ready)), Act(StartClosing));
      && s'.copy == Some(s.row.pos.(state := Closing)) && s'.row.pos == s.row.pos.(state := Closing)
      && s'.yes == s.yes && s'.no == s.no
  {
    var s1 := Next(s, Load);
    assert s1.copy == Some(s.row.pos);
    var s2 := Next(s1, Act(Ready));
    assert s2.copy == Some(s.row.pos.(state := ExitReady)) && s2.row.pos == s.row.pos.(state := ExitReady);
  }

  lemma CrashCycleRuns(s: Sys)
    requires s.copy.None? && Entered(s.row.pos)
    ensures var s', p := Run(s, CrashCycle()), s.row.pos;
      && s'.copy.None?
      && s'.row.pos == if p.retries + 1 < MAX_RETRY_ATTEMPTS
           then p.(state := ExitReady, reason := None, retries := p.retries + 1)
           else p.(state := ExitFailed, reason := Some(INTERRUPTED_CLOSING), retries := p.retries + 1)
  {
    ClosingStarted(s);
    var s1, s2 := Next(s, Load), Next(Next(s, Load), Act(Ready));
    var s3 := Next(s2, Act(StartClosing));
    var s4 := Next(s3, Drop);
    RunPrefix(s, Load, [Act(Ready)] + ([Act(StartClosing)] + ([Drop] + ([MonitorStart([])] + []))));
    RunPrefix(s1, Act(Ready), [Act(StartClosing)] + ([Drop] + ([MonitorStart([])] + [])));
    RunPrefix(s2, Act(StartClosing), [Drop] + ([MonitorStart([])] + []));
    RunPrefix(s3, Drop, [MonitorStart([])] + []);
    RunPrefix(s4, MonitorStart([]), []);
    assert s4.row == s3.row && s4.copy.None?;
    assert Passes(Persist(s4.row, MonitorCopy(s4.row.pos)), []) == Persist(s4.row, MonitorCopy(s4.row.pos));
  }

  /** Interrupted closes until the attempts are exhausted, and then a reconciler pass. */
  function WriteOffRun(retries: nat): seq<Step>
    decreases MAX_RETRY_ATTEMPTS - retries
  {
    CrashCycle() + if retries + 1 < MAX_RETRY_ATTEMPTS then WriteOffRun(retries + 1) else [Reconcile(Quote(None, None))]
  }

  lemma {:induction false} RunConcat(s: Sys, a: seq<Step>, b: seq<Step>)
    ensures Run(s, a + b) == Run(Run(s, a), b)
    decreases |a|
  {
    if a == [] {
      assert a + b == b;
    } else {
      assert (a + b)[1..] == a[1..] + b;
      RunConcat(Next(s, a[0]), a[1..], b);
    }
  }

  lemma {:induction false} WriteOff(s: Sys)
    requires s.copy.None? && Entered(s.row.pos) && NonNegative(s.row.pos) && !HasExit(s.row.pos)
    ensures var p := Run(s, WriteOffRun(s.row.pos.retries)).row.pos;
      p.state.EntryFailed? && p.yes == s.row.pos.yes.(held := 0.0) && p.no == s.row.pos.no.(held := 0.0)
    decreases MAX_RETRY_ATTEMPTS - s.row.pos.retries
  {
    var retries := s.row.pos.retries;
    CrashCycleRuns(s);
    var s1 := Run(s, CrashCycle());
    if retries + 1 < MAX_RETRY_ATTEMPTS {
      WriteOff(s1);
      RunConcat(s, CrashCycle(), WriteOffRun(retries + 1));
    } else {
      var q := Quote(None, None);
      RunConcat(s, CrashCycle(), [Reconcile(q)]);
      assert [Reconcile(q)] == [Reconcile(q)] + [];
      RunPrefix(s1, Reconcile(q), []);
      InterruptedFailureIsWrittenOff(s1.row, q);
    }
  }

  /**
   Over all runs, deaths and start-ups included, the books are conserved exactly when every outstanding leg is held
   and either some leg has an exit price on record or nothing is held.
   */
  lemma ConservationExact(row: Row)
    requires Entered(row.pos) && NonNegative(row.pos) && row.pos.quantity > 0.0
    ensures ConservedInEveryRun(row) <==>
      && Backed(row.pos.yes) && Backed(row.pos.no)
      && (HasExit(row.pos) || (row.pos.yes.held == 0.0 && row.pos.no.held == 0.0))
  {
    var p := row.pos;
    if !Backed(p.yes) || !Backed(p.no) {
      Ledger.ConservationExact(row);
      var steps :| Calm(steps) && !SameTotals(p, Run(Start(row), steps).row.pos);
    } else if HasExit(p) {
      forall steps: seq<Step> ensures SameTotals(p, Run(Start(row), steps).row.pos) {
        BooksWithExitAreConserved(Start(row), steps, p.yes.Total(), p.no.Total());
      }
    } else if p.yes.held == 0.0 && p.no.held == 0.0 {
      forall steps: seq<Step> ensures SameTotals(p, Run(Start(row), steps).row.pos) {
        NeverBoughtStaysEmpty(Start(row), steps, Yes, p.yes.exited);
        NeverBoughtStaysEmpty(Start(row), steps, No, p.no.exited);
      }
    } else {
      WriteOff(Start(row));
      assert !SameTotals(p, Run(Start(row), WriteOffRun(p.retries)).row.pos);
    }
  }

  // ── Overselling over all runs ─────────────────────────────────────────

  ghost predicate NeverOversold(row: Row) {
    forall steps: seq<Step>, leg: Leg :: WithinHolding(row, steps, leg)
  }

  predicate Within(p0: Pos, s: Sys) {
    s.yes.count <= 1 && s.yes.sold <= p0.yes.held && s.no.count <= 1 && s.no.sold <= p0.no.held
  }

  /** Attempts exhausted: nobody will send another order. */
  predicate Frozen(s: Sys) {
    || (s.copy.None? && s.row.pos.state.Closing? && s.row.pos.retries + 1 >= MAX_RETRY_ATTEMPTS)
    || (&& Failure(s.row.pos.state) && s.row.pos.retries >= MAX_RETRY_ATTEMPTS
        && (s.copy.Some? ==> s.copy.value.state.ExitFailed? && s.copy.value.retries >= MAX_RETRY_ATTEMPTS))
  }

  lemma FrozenStays(s: Sys, step: Step)
    requires Frozen(s)
    ensures Frozen(Next(s, step)) && Next(s, step).yes == s.yes && Next(s, step).no == s.no
  {
    match step
    case Reconcile(q) => assert SameButMarks(s.row.pos, Pass(s.row, q).pos);
    case MonitorStart(between) => MonitorFrame(s.row, between);
    case _ =>
  }

  /** No death has happened yet, or none that leaves anything to order. */
  ghost predicate LastChance(p0: Pos, s: Sys) {
    SaleInv(p0, s) && RetryInv(s, p0.retries) && p0.retries + 1 >= MAX_RETRY_ATTEMPTS
  }

  lemma DeathIsWithin(p0: Pos, s: Sys, leg: Leg, qty: real)
    requires Covered(p0) && LastChance(p0, s)
    ensures var s' := Next(s, DieAfterFill(leg, qty)); s' == s || (Frozen(s') && Within(p0, s'))
  {
    if s.copy.Some? && s.copy.value.state.Closing? && s.copy.value.Holds(leg) && 0.0 < qty <= s.copy.value.quantity {
      assert s.copy.value.Book(leg) == p0.Book(leg);
    }
  }

  lemma StartIsWithin(p0: Pos, s: Sys, between: seq<Quote>)
    requires Covered(p0) && LastChance(p0, s)
    ensures var s' := Next(s, MonitorStart(between)); LastChance(p0, s') || (Frozen(s') && Within(p0, s'))
  {
    StepKeepsRetries(s, MonitorStart(between), p0.retries);
    if s.copy.None? {
      MonitorFrame(s.row, between);
      if s.row.pos.state.Closed? {
        ClosedStays(s.row, between);
      } else if Entered(s.row.pos) {
        PassesKeepBackedRows(s.row, between);
      }
    }
  }

  lemma CalmStepIsWithin(p0: Pos, s: Sys, step: Step)
    requires Covered(p0) && LastChance(p0, s) && !step.DieAfterFill? && !step.MonitorStart?
    ensures LastChance(p0, Next(s, step))
  {
    StepStaysCovered(p0, s, step);
    StepKeepsRetries(s, step, p0.retries);
  }

  lemma {:induction false} LastChanceStaysWithin(p0: Pos, s: Sys, steps: seq<Step>)
    requires Covered(p0) && (LastChance(p0, s) || (Frozen(s) && Within(p0, s)))
    ensures Within(p0, Run(s, steps))
    decreases |steps|
  {
    if steps != [] {
      if !LastChance(p0, s) {
        FrozenStays(s, steps[0]);
      } else {
        match steps[0]
        case DieAfterFill(leg, qty) => DeathIsWithin(p0, s, leg, qty);
        case MonitorStart(between) => StartIsWithin(p0, s, between);
        case _ => CalmStepIsWithin(p0, s, steps[0]);
      }
      LastChanceStaysWithin(p0, Next(s, steps[0]), steps[1..]);
    }
  }

  /** The fill of a death is forgotten, the start-up requeues, and the leg is ordered again. */
  function SellTwice(p: Pos, leg: Leg): seq<Step> {
    [Load] + ([Act(Ready)] + ([Act(StartClosing)] + ([DieAfterFill(leg, p.quantity)] + ([MonitorStart([])]
      + ([Load] + ([Act(Ready)] + ([Act(StartClosing)] + ([Act(Sell(leg, 1.0, p.quantity, ""))] + []))))))))
  }

  lemma SellTwiceRuns(row: Row, leg: Leg)
    requires Entered(row.pos) && row.pos.quantity > 0.0 && row.pos.Book(leg).Outstanding()
    requires row.pos.retries + 1 < MAX_RETRY_ATTEMPTS
    ensures Run(Start(row), SellTwice(row.pos, leg)).SalesOf(leg).count == 2
  {
    var s, die, sell := Start(row), DieAfterFill(leg, row.pos.quantity), Act(Sell(leg, 1.0, row.pos.quantity, ""));
    var again := [Load] + ([Act(Ready)] + ([Act(StartClosing)] + ([sell] + [])));
    ClosingStarted(s);
    var s1, s2 := Next(s, Load), Next(Next(s, Load), Act(Ready));
    var s3 := Next(s2, Act(StartClosing));
    var s4 := Next(s3, die);
    var s5 := Next(s4, MonitorStart([]));
    RunPrefix(s, Load, [Act(Ready)] + ([Act(StartClosing)] + ([die] + ([MonitorStart([])] + again))));
    RunPrefix(s1, Act(Ready), [Act(StartClosing)] + ([die] + ([MonitorStart([])] + again)));
    RunPrefix(s2, Act(StartClosing), [die] + ([MonitorStart([])] + again));
    RunPrefix(s3, die, [MonitorStart([])] + again);
    RunPrefix(s4, MonitorStart([]), again);
    StartupRequeues(s4.row, []);
    SellAgain(s5, row.pos.quantity, leg);
  }

  lemma SellAgain(s: Sys, quantity: real, leg: Leg)
    requires s.copy.None? && Entered(s.row.pos) && s.row.pos.Book(leg).Outstanding()
    requires 0.0 < quantity == s.row.pos.quantity
    ensures var again := [Load] + ([Act(Ready)] + ([Act(StartClosing)] + ([Act(Sell(leg, 1.0, quantity, ""))] + [])));
      Run(s, again).SalesOf(leg).count == s.SalesOf(leg).count + 1
  {
    var sell := Act(Sell(leg, 1.0, quantity, ""));
    ClosingStarted(s);
    var s1, s2 := Next(s, Load), Next(Next(s, Load), Act(Ready));
    var s3 := Next(s2, Act(StartClosing));
    RunPrefix(s, Load, [Act(Ready)] + ([Act(StartClosing)] + ([sell] + [])));
    RunPrefix(s1, Act(Ready), [Act(StartClosing)] + ([sell] + []));
    RunPrefix(s2, Act(StartClosing), [sell] + []);
    RunPrefix(s3, sell, []);
  }

  /**
   Over all runs, deaths and start-ups included, no leg is sold twice or beyond its holding exactly when the stored
   quantity is covered and either the attempts are exhausted or there is nothing to sell.
   */
  lemma OversellExact(row: Row)
    requires Entered(row.pos) && NonNegative(row.pos) && row.pos.quantity > 0.0
    ensures NeverOversold(row) <==>
      && Covered(row.pos)
      && (row.pos.retries + 1 >= MAX_RETRY_ATTEMPTS || (!row.pos.yes.Outstanding() && !row.pos.no.Outstanding()))
  {
    var p := row.pos;
    if !Covered(p) {
      Ledger.OversellExact(row);
      var steps, leg :| Calm(steps) && !WithinHolding(row, steps, leg);
    } else if !p.yes.Outstanding() && !p.no.Outstanding() {
      forall steps: seq<Step>, leg: Leg ensures WithinHolding(row, steps, leg) {
        NothingToSell(row, steps, leg);
      }
    } else if p.retries + 1 >= MAX_RETRY_ATTEMPTS {
      forall steps: seq<Step>, leg: Leg ensures WithinHolding(row, steps, leg) {
        LastChanceStaysWithin(p, Start(row), steps);
      }
    } else {
      var leg := if p.yes.Outstanding() then Yes else No;
      SellTwiceRuns(row, leg);
      assert !WithinHolding(row, SellTwice(p, leg), leg);
    }
  }

  lemma NothingToSell(row: Row, steps: seq<Step>, leg: Leg)
    requires !row.pos.Book(leg).Outstanding() && NonNegative(row.pos)
    ensures WithinHolding(row, steps, leg)
  {
    if row.pos.Book(leg).exit.Some? {
      RunKeepsRecordedLeg(Start(row), steps, leg);
    } else {
      UnpricedSalesStayZero(Start(row), steps, leg);
    }
  }

  lemma {:induction false} UnpricedSalesStayZero(s: Sys, steps: seq<Step>, leg: Leg)
    requires Unpriced(s, leg)
    ensures Run(s, steps).SalesOf(leg) == s.SalesOf(leg)
    decreases |steps|
  {
    if steps != [] {
      StepKeepsUnpriced(s, steps[0], leg);
      assert Next(s, steps[0]).SalesOf(leg) == s.SalesOf(leg);
      UnpricedSalesStayZero(Next(s, steps[0]), steps[1..], leg);
    }
  }
}
