/**
 The per-strategy circuit breaker of the quant executor: daily P&L, a consecutive-loss counter, two kinds
 of halt, a cooldown that lifts one of them, and the reset at UTC midnight.

 Time is a number of seconds given to each step.
 */
module Breaker {
  import opened Positions

  const DAY_SECS: int := 86400

  function Day(now: int): int { now / DAY_SECS }

  /** A day is twenty-four hours, and starts at each multiple of them. */
  lemma DayLength(now: int, hours: int)
    requires 0 <= hours < 24
    ensures Day(now + 24 * 60 * 60) == Day(now) + 1
    ensures Day(24 * 60 * 60 * now + hours * 60 * 60) == now
  {
  }

  datatype HaltReason = DailyLoss | ConsecutiveLosses

  datatype Strategy = Strategy(
    pnl: real, date: int, losses: nat, halted: bool, reason: Option<HaltReason>, haltedAt: Option<int>)

  /** The largest daily loss and the number of consecutive losses that halts. */
  datatype Limits = Limits(dailyLoss: real, losses: nat)

  function Fresh(now: int): Strategy { Strategy(0.0, Day(now), 0, false, None, None) }

  function Refresh(s: Strategy, now: int, cooldown: nat): Strategy {
    if Day(now) != s.date then Fresh(now)
    else if !s.halted || cooldown == 0 then s
    else if s.haltedAt.Some? && now - s.haltedAt.value >= cooldown && s.reason == Some(ConsecutiveLosses)
    then s.(halted := false, reason := None, haltedAt := None, losses := 0)
    else s
  }

  function RecordOutcome(s: Strategy, now: int, pnl: real, limits: Limits): Strategy {
    var today := Refresh(s, now, 0);
    var counted := today.(pnl := today.pnl + pnl, losses := if pnl > 0.0 then 0 else today.losses + 1);
    if counted.pnl < -limits.dailyLoss then counted.(halted := true, reason := Some(DailyLoss), haltedAt := Some(now))
    else if counted.losses >= limits.losses
    then counted.(halted := true, reason := Some(ConsecutiveLosses), haltedAt := Some(now))
    else counted
  }

  /** The object the executor keeps per strategy. */
  class StrategyState {
    var dailyPnl: real
    var dailyPnlDate: int
    var consecutiveLosses: nat
    var halted: bool
    var haltReason: Option<HaltReason>
    var haltedAt: Option<int>

    function Value(): (s: Strategy)
      reads this
    {
      Strategy(dailyPnl, dailyPnlDate, consecutiveLosses, halted, haltReason, haltedAt)
    }

    constructor (now: int)
      ensures Value() == Fresh(now)
    {
      dailyPnl, dailyPnlDate, consecutiveLosses := 0.0, Day(now), 0;
      halted, haltReason, haltedAt := false, None, None;
    }

    method DoRefresh(now: int, cooldown: nat)
      modifies this
      ensures Value() == Refresh(old(Value()), now, cooldown)
    {
      var today := Day(now);
      if today != dailyPnlDate {
        dailyPnl, dailyPnlDate, consecutiveLosses := 0.0, today, 0;
        halted, haltReason, haltedAt := false, None, None;
        return;
      }
      if !halted || cooldown == 0 {
        return;
      }
      var elapsed := haltedAt.Some? && now - haltedAt.value >= cooldown;
      if elapsed && haltReason == Some(ConsecutiveLosses) {
        halted, haltReason, haltedAt := false, None, None;
        consecutiveLosses := 0;
      }
    }

    /** Returns true when the outcome trips the breaker. */
    method Record(now: int, pnl: real, limits: Limits) returns (tripped: bool)
      modifies this
      ensures Value() == RecordOutcome(old(Value()), now, pnl, limits)
      ensures tripped <==> dailyPnl < -limits.dailyLoss || consecutiveLosses >= limits.losses
    {
      DoRefresh(now, 0);
      dailyPnl := dailyPnl + pnl;
      if pnl > 0.0 {
        consecutiveLosses := 0;
      } else {
        consecutiveLosses := consecutiveLosses + 1;
      }
      if dailyPnl < -limits.dailyLoss {
        halted, haltReason, haltedAt := true, Some(DailyLoss), Some(now);
        return true;
      }
      if consecutiveLosses >= limits.losses {
        halted, haltReason, haltedAt := true, Some(ConsecutiveLosses), Some(now);
        return true;
      }
      return false;
    }
  }

  // ── Runs ──────────────────────────────────────────────────────────────

  /** A realised outcome, or a signal asking the gate (the cooldown is read from the live config each time). */
  datatype Event = Outcome(at: int, pnl: real) | Signal(at: int, cooldown: nat)

  function Next(s: Strategy, e: Event, limits: Limits): Strategy {
    match e
    case Outcome(at, pnl) => RecordOutcome(s, at, pnl, limits)
    case Signal(at, cooldown) => Refresh(s, at, cooldown)
  }

  function RunFrom(s: Strategy, events: seq<Event>, limits: Limits): Strategy {
    if events == [] then s else Next(RunFrom(s, events[..|events| - 1], limits), events[|events| - 1], limits)
  }

  function Run(start: int, events: seq<Event>, limits: Limits): Strategy { RunFrom(Fresh(start), events, limits) }

  /** Whether a signal passes: the state is refreshed and then must not be halted. */
  predicate Passes(s: Strategy, now: int, cooldown: nat) { !Refresh(s, now, cooldown).halted }

  /** A strategy that is over either limit is halted, and a daily loss is never masked by the liftable reason. */
  predicate Safe(s: Strategy, limits: Limits) {
    && (s.pnl < -limits.dailyLoss ==> s.halted && s.reason == Some(DailyLoss))
    && (s.losses >= limits.losses ==> s.halted)
  }

  predicate Sane(limits: Limits) { limits.dailyLoss >= 0.0 && limits.losses >= 1 }

  lemma StepIsSafe(s: Strategy, e: Event, limits: Limits)
    requires Sane(limits) && Safe(s, limits)
    ensures Safe(Next(s, e, limits), limits)
  {
  }

  lemma {:induction false} RunsAreSafe(start: int, events: seq<Event>, limits: Limits)
    requires Sane(limits)
    ensures Safe(Run(start, events, limits), limits)
  {
    if events != [] {
      var before := events[..|events| - 1];
      RunsAreSafe(start, before, limits);
      StepIsSafe(Run(start, before, limits), events[|events| - 1], limits);
    }
  }

  /** Safety holds in every run exactly for sane limits: otherwise the very first state already breaks it. */
  lemma SafetyExact(limits: Limits)
    ensures (forall start: int, events: seq<Event> :: Safe(Run(start, events, limits), limits)) <==> Sane(limits)
  {
    if Sane(limits) {
      forall start: int, events: seq<Event> ensures Safe(Run(start, events, limits), limits) {
        RunsAreSafe(start, events, limits);
      }
    } else {
      assert Run(0, [], limits) == Fresh(0);
    }
  }

  // ── The counters against the history ──────────────────────────────────

  ghost predicate InOrder(start: int, events: seq<Event>) {
    && (forall i :: 0 <= i < |events| ==> start <= events[i].at)
    && (forall i, j :: 0 <= i < j < |events| ==> events[i].at <= events[j].at)
  }

  /** The P&L realised on one UTC day. */
  function DayTotal(events: seq<Event>, day: int): real {
    if events == [] then 0.0
    else
      var e := events[|events| - 1];
      DayTotal(events[..|events| - 1], day) + if e.Outcome? && Day(e.at) == day then e.pnl else 0.0
  }

  lemma {:induction false} NothingAfter(events: seq<Event>, day: int)
    requires forall i :: 0 <= i < |events| ==> Day(events[i].at) < day
    ensures DayTotal(events, day) == 0.0
  {
    if events != [] {
      NothingAfter(events[..|events| - 1], day);
    }
  }

  /** Losses since the last win of that day. */
  function LossStreak(events: seq<Event>, day: int): nat {
    if events == [] then 0
    else
      var e := events[|events| - 1];
      var streak := LossStreak(events[..|events| - 1], day);
      if !e.Outcome? || Day(e.at) != day then streak else if e.pnl > 0.0 then 0 else streak + 1
  }

  lemma {:induction false} NoStreakAfter(events: seq<Event>, day: int)
    requires forall i :: 0 <= i < |events| ==> Day(events[i].at) < day
    ensures LossStreak(events, day) == 0
  {
    if events != [] {
      NoStreakAfter(events[..|events| - 1], day);
    }
  }

  /** The date the state has reached, and its two counters against the recorded history. */
  lemma {:induction false} CountersMatchHistory(start: int, events: seq<Event>, limits: Limits)
    requires InOrder(start, events)
    ensures var s := Run(start, events, limits);
      && s.date == Day(if events == [] then start else events[|events| - 1].at)
      && s.pnl == DayTotal(events, s.date)
      && s.losses <= LossStreak(events, s.date)
      && ((forall i :: 0 <= i < |events| && events[i].Signal? ==> events[i].cooldown == 0)
          ==> s.losses == LossStreak(events, s.date))
  {
    if events != [] {
      var before := events[..|events| - 1];
      var e := events[|events| - 1];
      CountersMatchHistory(start, before, limits);
      var s := Run(start, before, limits);
      if s.date != Day(e.at) {
        forall i | 0 <= i < |before| ensures Day(before[i].at) < Day(e.at) {
          assert before[i].at <= before[|before| - 1].at <= e.at;
        }
        NothingAfter(before, Day(e.at));
        NoStreakAfter(before, Day(e.at));
      }
    }
  }

  /**
   The gate, over every run: the breaker's day P&L at the moment of the signal is the sum of that day's
   outcomes, and if that is below the limit, or the counter has reached its limit, the signal does not pass,
   whatever the cooldown and however often halts were lifted or overwritten on the way.
   */
  lemma GateBlocks(start: int, events: seq<Event>, limits: Limits, now: int, cooldown: nat)
    requires Sane(limits) && InOrder(start, events + [Signal(now, cooldown)])
    ensures var s := Refresh(Run(start, events, limits), now, cooldown);
      && s.pnl == DayTotal(events, Day(now))
      && (DayTotal(events, Day(now)) < -limits.dailyLoss || s.losses >= limits.losses
          ==> !Passes(Run(start, events, limits), now, cooldown))
      && (cooldown == 0 && LossStreak(events, Day(now)) >= limits.losses
          && (forall i :: 0 <= i < |events| && events[i].Signal? ==> events[i].cooldown == 0)
          ==> !Passes(Run(start, events, limits), now, cooldown))
  {
    var all := events + [Signal(now, cooldown)];
    assert all[..|all| - 1] == events;
    CountersMatchHistory(start, all, limits);
    RunsAreSafe(start, all, limits);
  }

  /** A halt has a cause on its own day: a strategy without an outcome today lets signals pass. */
  lemma {:induction false} HaltHasCause(start: int, events: seq<Event>, limits: Limits)
    requires Run(start, events, limits).halted
    ensures exists i :: 0 <= i < |events| && events[i].Outcome? && Day(events[i].at) == Run(start, events, limits).date
  {
    var before, e := events[..|events| - 1], events[|events| - 1];
    if e.Signal? {
      HaltHasCause(start, before, limits);
      var i :| 0 <= i < |before| && before[i].Outcome? && Day(before[i].at) == Run(start, before, limits).date;
      assert events[i] == before[i];
    }
  }

  lemma QuietDayPasses(start: int, events: seq<Event>, limits: Limits, now: int, cooldown: nat)
    requires forall i :: 0 <= i < |events| && events[i].Outcome? ==> Day(events[i].at) != Day(now)
    ensures Passes(Run(start, events, limits), now, cooldown)
  {
    if Run(start, events, limits).halted {
      HaltHasCause(start, events, limits);
    }
  }

  // ── When a daily-loss halt lasts the day ──────────────────────────────

  /** A losing (or zero) outcome that leaves the P&L within the limit and completes the loss streak. */
  predicate Replaces(s: Strategy, e: Event, limits: Limits) {
    e.Outcome? && e.pnl <= 0.0 && s.pnl + e.pnl >= -limits.dailyLoss && s.losses + 1 >= limits.losses
  }

  /** One event of the same day: the halt stays, and its reason is replaced by the liftable one exactly then. */
  lemma DailyHaltStep(s: Strategy, e: Event, limits: Limits)
    requires Sane(limits) && s.halted && s.reason == Some(DailyLoss) && Day(e.at) == s.date
    ensures var s' := Next(s, e, limits);
      && s'.halted && s'.date == s.date
      && (s'.reason == Some(DailyLoss) <==> !Replaces(s, e, limits))
      && (Replaces(s, e, limits) ==> s'.reason == Some(ConsecutiveLosses) && s'.haltedAt == Some(e.at))
  {
  }

  /** The events of one day from `date` on, in time order. */
  ghost predicate SameDay(events: seq<Event>, date: int) {
    && (forall i :: 0 <= i < |events| ==> Day(events[i].at) == date)
    && (forall i, j :: 0 <= i < j < |events| ==> events[i].at <= events[j].at)
  }

  /** Whether a signal at `now`, after the first `k` events and on the same day, passes. */
  predicate PassesAfter(s: Strategy, events: seq<Event>, limits: Limits, k: nat, now: int, cooldown: nat)
    requires k <= |events|
  {
    Passes(RunFrom(s, events[..k], limits), now, cooldown)
  }

  ghost predicate BlockedAllDay(s: Strategy, events: seq<Event>, limits: Limits) {
    forall k: nat, now: int, cooldown: nat ::
      k <= |events| && Day(now) == s.date && (k > 0 ==> events[k - 1].at <= now)
      ==> !PassesAfter(s, events, limits, k, now, cooldown)
  }

  /** The last second of a day: no cooldown can elapse before midnight. */
  predicate LastSecond(at: int) { Day(at + 1) != Day(at) }

  /** Event `i` puts the liftable halt in place, early enough for a cooldown to elapse that day. */
  predicate ReplacedBy(s: Strategy, events: seq<Event>, limits: Limits, i: nat)
    requires i < |events|
  {
    Replaces(RunFrom(s, events[..i], limits), events[i], limits) && !LastSecond(events[i].at)
  }

  ghost predicate NeverReplaced(s: Strategy, events: seq<Event>, limits: Limits, k: nat)
    requires k <= |events|
  {
    forall i: nat :: i < k ==> !ReplacedBy(s, events, limits, i)
  }

  /** Halted for the daily loss, or for a streak completed in the last second. */
  predicate Stuck(s: Strategy, limits: Limits) {
    && s.halted && Safe(s, limits)
    && (s.reason == Some(DailyLoss)
        || (s.reason == Some(ConsecutiveLosses) && s.haltedAt.Some? && Day(s.haltedAt.value) == s.date && LastSecond(s.haltedAt.value)))
  }

  lemma StuckBlocks(s: Strategy, now: int, cooldown: nat, limits: Limits)
    requires Stuck(s, limits) && Day(now) == s.date
    ensures Refresh(s, now, cooldown) == s
  {
  }

  lemma {:induction false} StaysStuck(s: Strategy, events: seq<Event>, limits: Limits, k: nat)
    requires Sane(limits) && s.reason == Some(DailyLoss) && Stuck(s, limits)
    requires SameDay(events, s.date) && k <= |events| && NeverReplaced(s, events, limits, k)
    ensures var s' := RunFrom(s, events[..k], limits);
      && Stuck(s', limits) && s'.date == s.date
      && (s'.reason == Some(ConsecutiveLosses) ==> k > 0 && LastSecond(events[k - 1].at))
  {
    if k > 0 {
      StaysStuck(s, events, limits, k - 1);
      assert events[..k][..k - 1] == events[..k - 1];
      var before, e := RunFrom(s, events[..k - 1], limits), events[k - 1];
      assert !ReplacedBy(s, events, limits, k - 1);
      if before.reason == Some(DailyLoss) {
        DailyHaltStep(before, e, limits);
        StepIsSafe(before, e, limits);
      } else {
        assert LastSecond(events[k - 2].at) && events[k - 2].at <= e.at && Day(e.at) == Day(events[k - 2].at);
        StuckBlocks(before, e.at, 0, limits);
        if e.Signal? { StuckBlocks(before, e.at, e.cooldown, limits); }
        StepIsSafe(before, e, limits);
      }
    }
  }

  /**
   A strategy halted for its daily loss is closed to every signal of the rest of the day, whatever the cooldowns,
   exactly when no outcome before the last second completes a loss streak with the P&L back within the limit.
   */
  lemma DailyHaltExact(s: Strategy, events: seq<Event>, limits: Limits)
    requires Sane(limits) && Safe(s, limits) && s.halted && s.reason == Some(DailyLoss) && SameDay(events, s.date)
    ensures BlockedAllDay(s, events, limits) <==> NeverReplaced(s, events, limits, |events|)
  {
    if NeverReplaced(s, events, limits, |events|) {
      forall k: nat, now: int, cooldown: nat
        | k <= |events| && Day(now) == s.date && (k > 0 ==> events[k - 1].at <= now)
        ensures !PassesAfter(s, events, limits, k, now, cooldown)
      {
        StaysStuck(s, events, limits, k);
        StuckBlocks(RunFrom(s, events[..k], limits), now, cooldown, limits);
      }
    } else {
      FirstReplacement(s, events, limits, |events|);
    }
  }

  /** The first replacement lets a signal through one second later. */
  lemma {:induction false} FirstReplacement(s: Strategy, events: seq<Event>, limits: Limits, n: nat)
    requires Sane(limits) && Safe(s, limits) && s.halted && s.reason == Some(DailyLoss) && SameDay(events, s.date)
    requires n <= |events| && !NeverReplaced(s, events, limits, n)
    ensures !BlockedAllDay(s, events, limits)
  {
    var last := n - 1;
    if !NeverReplaced(s, events, limits, last) {
      FirstReplacement(s, events, limits, last);
    } else {
      assert ReplacedBy(s, events, limits, last);
      StaysStuck(s, events, limits, last);
      var before, e := RunFrom(s, events[..last], limits), events[last];
      assert last > 0 ==> events[last - 1].at <= e.at;
      assert before.reason == Some(DailyLoss);
      DailyHaltStep(before, e, limits);
      assert events[..n][..last] == events[..last];
      assert RunFrom(s, events[..n], limits) == Next(before, e, limits);
      assert PassesAfter(s, events, limits, n, e.at + 1, 1);
    }
  }

  lemma RunAppend(start: int, events: seq<Event>, e: Event, limits: Limits)
    ensures Run(start, events + [e], limits) == Next(Run(start, events, limits), e, limits)
  {
    assert (events + [e])[..|events|] == events;
  }

  /** A loss beyond the limit, a win, and then as many losses of one as the limit allows. */
  function Lifting(limits: Limits, n: nat): seq<Event> {
    if n == 0 then [] + [Outcome(0, -limits.dailyLoss - 1.0)] + [Outcome(0, limits.losses as real + 1.0)]
    else Lifting(limits, n - 1) + [Outcome(0, -1.0)]
  }

  /** The state after `n` of those losses. */
  function LiftingState(limits: Limits, n: nat): Strategy {
    Strategy(-limits.dailyLoss + (limits.losses - n) as real, 0, n, true,
      Some(if n < limits.losses then DailyLoss else ConsecutiveLosses), Some(0))
  }

  lemma LiftingStart(limits: Limits)
    requires Sane(limits)
    ensures var lost := RecordOutcome(Fresh(0), 0, -limits.dailyLoss - 1.0, limits);
      RecordOutcome(lost, 0, limits.losses as real + 1.0, limits) == LiftingState(limits, 0)
  {
    var lost := RecordOutcome(Fresh(0), 0, -limits.dailyLoss - 1.0, limits);
    assert lost == Strategy(-limits.dailyLoss - 1.0, 0, 1, true, Some(DailyLoss), Some(0));
  }

  lemma LiftingStep(limits: Limits, n: nat)
    requires Sane(limits) && 0 < n <= limits.losses
    ensures RecordOutcome(LiftingState(limits, n - 1), 0, -1.0, limits) == LiftingState(limits, n)
  {
  }

  lemma {:induction false} LiftingRun(limits: Limits, n: nat)
    requires Sane(limits) && n <= limits.losses
    ensures Run(0, Lifting(limits, n), limits) == LiftingState(limits, n)
  {
    if n == 0 {
      var loss, win := Outcome(0, -limits.dailyLoss - 1.0), Outcome(0, limits.losses as real + 1.0);
      RunAppend(0, [], loss, limits);
      RunAppend(0, [] + [loss], win, limits);
      LiftingStart(limits);
    } else {
      LiftingRun(limits, n - 1);
      RunAppend(0, Lifting(limits, n - 1), Outcome(0, -1.0), limits);
      LiftingStep(limits, n);
    }
  }

  /** For all sane limits and every cooldown within the day, a daily-loss halt can be lifted the same day. */
  lemma DailyLossHaltCanBeLifted(limits: Limits, cooldown: nat)
    requires Sane(limits) && 0 < cooldown < DAY_SECS
    ensures Run(0, Lifting(limits, 0), limits).reason == Some(DailyLoss)
    ensures Passes(Run(0, Lifting(limits, limits.losses), limits), cooldown, cooldown) && Day(cooldown) == 0
  {
    LiftingRun(limits, 0);
    LiftingRun(limits, limits.losses);
  }
}
