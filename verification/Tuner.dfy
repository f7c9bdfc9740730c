/**
 One row of the dynamic_config table: seeding, step-limited tuning with publish or revert, delayed
 evaluation with rollback, and manual overrides.

 Values are real numbers.  Loading a row, changing it and publishing (or reverting) is one step, except
 where a stale snapshot is the point.
 */
module Tuner {
  import opened Positions

  const EPSILON: real := 0.000001
  const MIN_STEP: real := 0.0001

  datatype Metrics = Metrics(fillRate: real, pnl: real)

  /** How far the fill rate and the P&L may drop before a change is rolled back. */
  datatype Tolerance = Tolerance(fillRate: real, pnl: real, delayMinutes: int)

  datatype Writer = Bootstrap | Automatic | Manual

  datatype ConfigRow = ConfigRow(
    current: real, default: real, min: real, max: real, stepPct: real, enabled: bool,
    lastGood: real, pending: bool, baseline: Option<Metrics>, lastApplied: Option<int>, updatedBy: Writer)

  function Clamp(x: real, min: real, max: real): real {
    var raised := if x < min then min else x;
    if raised > max then max else raised
  }

  function Abs(x: real): real { if x < 0.0 then -x else x }

  // ── Tuning one row ────────────────────────────────────────────────────

  function MaxDelta(current: real, pct: real, reference: real): real {
    var base := if Abs(current) > EPSILON then Abs(current) else if Abs(reference) > 1.0 then Abs(reference) else 1.0;
    var delta := base * (if pct <= 0.0 then 0.12 else pct);
    if delta < MIN_STEP then MIN_STEP else delta
  }

  function StepLimit(current: real, target: real, pct: real, reference: real): real {
    var most := MaxDelta(current, pct, reference);
    if Abs(target - current) <= most then target
    else if target > current then current + most else current - most
  }

  function Bounded(r: ConfigRow, target: real): real {
    Clamp(StepLimit(r.current, target, r.stepPct, r.default), r.min, r.max)
  }

  /** The value a cycle would write for this row, if any. */
  function Proposal(r: ConfigRow, target: real): Option<real> {
    if !r.enabled || r.pending || Abs(Bounded(r, target) - r.current) < EPSILON then None else Some(Bounded(r, target))
  }

  function ApplyChange(r: ConfigRow, value: real, now: int, metrics: Metrics): ConfigRow {
    r.(current := value, pending := true, baseline := Some(metrics), lastApplied := Some(now), updatedBy := Automatic)
  }

  /** rollback_unpublished_change: writes back the value of the snapshot the cycle had loaded. */
  function RevertUnpublished(r: ConfigRow, seen: ConfigRow): ConfigRow {
    r.(current := seen.current, pending := false, baseline := None, lastApplied := None, updatedBy := Automatic)
  }

  /** How a change ends: published, reverted because publishing failed, or cut off by a database error in between. */
  datatype Fate = Published | Reverted | Interrupted

  function Tuned(r: ConfigRow, target: real, now: int, metrics: Metrics, fate: Fate): ConfigRow {
    var value := Proposal(r, target);
    if value.None? then r
    else if fate.Reverted? then RevertUnpublished(ApplyChange(r, value.value, now, metrics), r)
    else ApplyChange(r, value.value, now, metrics)
  }

  // ── Evaluation, seeding, overrides ────────────────────────────────────

  /** Whole minutes, truncated towards zero. */
  function Minutes(secs: int): int { if secs >= 0 then secs / 60 else -((-secs) / 60) }

  predicate Due(r: ConfigRow, now: int, tolerance: Tolerance) {
    r.pending && r.lastApplied.Some? && Minutes(now - r.lastApplied.value) >= tolerance.delayMinutes
  }

  predicate Degraded(r: ConfigRow, metrics: Metrics, tolerance: Tolerance) {
    var baseline := if r.baseline.Some? then r.baseline.value else Metrics(0.0, 0.0);
    metrics.fillRate + tolerance.fillRate < baseline.fillRate || metrics.pnl < baseline.pnl - tolerance.pnl
  }

  /** The evaluation's rollback: writes back the last good value of the snapshot. */
  function RolledBack(r: ConfigRow, seen: ConfigRow): ConfigRow {
    r.(current := seen.lastGood, pending := false, baseline := None, updatedBy := Automatic)
  }

  /** A passed evaluation copies the row's own value in SQL, so the snapshot does not matter. */
  function Accepted(r: ConfigRow): ConfigRow {
    r.(lastGood := r.current, pending := false, baseline := None, updatedBy := Automatic)
  }

  function Evaluated(r: ConfigRow, now: int, metrics: Metrics, tolerance: Tolerance): ConfigRow {
    if !Due(r, now, tolerance) then r
    else if Degraded(r, metrics, tolerance) then RolledBack(r, r)
    else Accepted(r)
  }

  datatype Seed = Seed(default: real, min: real, max: real, stepPct: real)

  function Inserted(seed: Seed): ConfigRow {
    var value := Clamp(seed.default, seed.min, seed.max);
    ConfigRow(value, value, seed.min, seed.max, seed.stepPct, true, value, false, None, None, Bootstrap)
  }

  /** ON CONFLICT: rows that nobody has touched since the seed follow the new default, others are clamped. */
  function Reseeded(r: ConfigRow, seed: Seed): ConfigRow {
    var value := Clamp(seed.default, seed.min, seed.max);
    var r' := r.(default := value, min := seed.min, max := seed.max, stepPct := seed.stepPct);
    if r.updatedBy.Bootstrap? then r'.(current := value, lastGood := value)
    else r'.(current := Clamp(r.current, seed.min, seed.max), lastGood := Clamp(r.lastGood, seed.min, seed.max))
  }

  /** The command-line override: clamped to the row's own bounds, default included. */
  function Overridden(r: ConfigRow, value: real, default: Option<real>): ConfigRow {
    r.(current := Clamp(value, r.min, r.max),
       default := Clamp(if default.Some? then default.value else r.default, r.min, r.max),
       lastGood := Clamp(value, r.min, r.max), pending := false, baseline := None, lastApplied := None, updatedBy := Manual)
  }

  /** The workspace form for opportunity keys: it replaces the bounds too, but not the default. */
  function Rebounded(r: ConfigRow, value: real, min: real, max: real, stepPct: real): ConfigRow {
    r.(current := Clamp(value, min, max), min := min, max := max, stepPct := stepPct,
       lastGood := Clamp(value, min, max), pending := false, baseline := None, lastApplied := None, updatedBy := Manual)
  }

  // ── What the operations mean ──────────────────────────────────────────

  /** The clamp is the nearest value within ordered bounds. */
  lemma ClampIsNearest(x: real, min: real, max: real, other: real)
    requires min <= max && min <= other <= max
    ensures min <= Clamp(x, min, max) <= max
    ensures Abs(x - Clamp(x, min, max)) <= Abs(x - other)
  {
  }

  /**
   When an evaluation happens and how it ends, for a pending row at a later time: not before the delay has passed;
   then a drop of the P&L beyond its tolerance, or of the fill rate beyond its own, rolls back, and neither accepts.
   */
  lemma EvaluationLaw(r: ConfigRow, now: int, metrics: Metrics, tolerance: Tolerance, baseline: Metrics, applied: int)
    requires r.pending && r.lastApplied == Some(applied) && r.baseline == Some(baseline)
    requires applied <= now && tolerance.delayMinutes >= 0
    ensures var r' := Evaluated(r, now, metrics, tolerance);
      && (now - applied < 60 * tolerance.delayMinutes ==> r' == r)
      && (now - applied >= 60 * tolerance.delayMinutes ==> !r'.pending && r'.baseline.None?)
      && (now - applied >= 60 * tolerance.delayMinutes && baseline.pnl - metrics.pnl > tolerance.pnl ==>
            r'.current == r.lastGood && r'.lastGood == r.lastGood)
      && (now - applied >= 60 * tolerance.delayMinutes && baseline.fillRate - metrics.fillRate > tolerance.fillRate ==>
            r'.current == r.lastGood && r'.lastGood == r.lastGood)
      && (now - applied >= 60 * tolerance.delayMinutes && baseline.pnl - metrics.pnl <= tolerance.pnl
          && baseline.fillRate - metrics.fillRate <= tolerance.fillRate ==>
            r'.current == r.current && r'.lastGood == r.current)
  {
  }

  /** A disabled row, and a row with a change still unevaluated, is left alone whatever the target. */
  lemma LeftAlone(r: ConfigRow, target: real, now: int, metrics: Metrics, fate: Fate)
    requires !r.enabled || r.pending
    ensures Tuned(r, target, now, metrics, fate) == r
  {
  }

  /** What a change writes down: when it was made, what it is to be judged by, and nothing about the last good value. */
  lemma ChangeIsOnRecord(r: ConfigRow, target: real, now: int, metrics: Metrics)
    requires Tuned(r, target, now, metrics, Published) != r
    ensures var r' := Tuned(r, target, now, metrics, Published);
      r'.pending && r'.lastApplied == Some(now) && r'.baseline == Some(metrics) && r'.lastGood == r.lastGood
      && r'.current == Bounded(r, target) && r'.updatedBy == Automatic
      && Tuned(r, target, now, metrics, Interrupted) == r'
  {
  }

  /** A reverted change leaves the value, and no trace of a pending evaluation. */
  lemma RevertLaw(r: ConfigRow, target: real, now: int, metrics: Metrics)
    requires Tuned(r, target, now, metrics, Reverted) != r
    ensures var r' := Tuned(r, target, now, metrics, Reverted);
      && r'.current == r.current && r'.lastGood == r.lastGood && !r'.pending && r'.baseline.None? && r'.lastApplied.None?
      && r'.updatedBy == Automatic && r'.enabled == r.enabled
  {
  }

  /**
   Reseeding: the row takes the new bounds, step and clamped default; if nobody has touched it since it was seeded its
   value follows the default, otherwise it keeps any value that is within the new bounds.
   */
  lemma ReseedLaw(r: ConfigRow, seed: Seed)
    requires Inv(r) && seed.min <= seed.max
    ensures var r' := Next(r, Reseed(seed));
      && r'.min == seed.min && r'.max == seed.max && r'.stepPct == seed.stepPct && r'.enabled == r.enabled
      && (seed.min <= seed.default <= seed.max ==> r'.default == seed.default)
      && (r.updatedBy == Bootstrap ==> r'.current == r'.default && r'.lastGood == r'.default)
      && (r.updatedBy != Bootstrap && seed.min <= r.current <= seed.max ==> r'.current == r.current)
      && (r.updatedBy != Bootstrap && seed.min <= r.lastGood <= seed.max ==> r'.lastGood == r.lastGood)
      && r'.pending == r.pending && r'.updatedBy == r.updatedBy
  {
  }

  /** A fresh seed is enabled, settled at its default, and counts as untouched. */
  lemma SeedLaw(seed: Seed)
    requires seed.min <= seed.default <= seed.max
    ensures var r := Inserted(seed);
      && r.current == seed.default && r.default == seed.default && r.lastGood == seed.default
      && r.min == seed.min && r.max == seed.max && r.stepPct == seed.stepPct
      && r.enabled && !r.pending && r.updatedBy == Bootstrap
  {
  }

  /** Both manual forms settle the row at a value within bounds as given, and end any pending evaluation. */
  lemma ManualLaw(r: ConfigRow, value: real, default: Option<real>, min: real, max: real, stepPct: real)
    requires Inv(r) && min <= max
    ensures var r' := Next(r, Override(value, default));
      && (r.min <= value <= r.max ==> r'.current == value) && r'.lastGood == r'.current
      && !r'.pending && r'.lastApplied.None? && r'.updatedBy == Manual
      && r'.min == r.min && r'.max == r.max && r'.stepPct == r.stepPct
      && (default.Some? && r.min <= default.value <= r.max ==> r'.default == default.value)
      && (default.None? && r.min <= r.default <= r.max ==> r'.default == r.default)
    ensures var r' := Next(r, Rebound(value, min, max, stepPct));
      && (min <= value <= max ==> r'.current == value) && r'.lastGood == r'.current
      && !r'.pending && r'.lastApplied.None? && r'.updatedBy == Manual
      && r'.min == min && r'.max == max && r'.stepPct == stepPct && r'.default == r.default
  {
  }

  // ── The row invariant ─────────────────────────────────────────────────

  predicate InBounds(r: ConfigRow, x: real) { r.min <= x <= r.max }

  predicate Inv(r: ConfigRow) {
    && InBounds(r, r.current) && InBounds(r, r.lastGood)
    && (!r.pending ==> r.current == r.lastGood)
    && (r.pending ==> r.lastApplied.Some? && r.baseline.Some?)
    && (r.updatedBy.Bootstrap? ==> !r.pending)
  }

  datatype Step =
    | Tune(target: real, now: int, metrics: Metrics, fate: Fate)
    | Evaluate(now: int, metrics: Metrics, tolerance: Tolerance)
    | Reseed(seed: Seed)
    | Override(value: real, default: Option<real>)
    | Rebound(value: real, min: real, max: real, stepPct: real)

  /** Bounds given to the table are ordered, as its CHECK constraint demands; other statements are refused. */
  function Next(r: ConfigRow, step: Step): ConfigRow {
    match step
    case Tune(target, now, metrics, fate) => Tuned(r, target, now, metrics, fate)
    case Evaluate(now, metrics, tolerance) => Evaluated(r, now, metrics, tolerance)
    case Reseed(seed) => if seed.min <= seed.max then Reseeded(r, seed) else r
    case Override(value, default) => Overridden(r, value, default)
    case Rebound(value, min, max, stepPct) => if min <= max then Rebounded(r, value, min, max, stepPct) else r
  }

  function Run(r: ConfigRow, steps: seq<Step>): ConfigRow {
    if steps == [] then r else Next(Run(r, steps[..|steps| - 1]), steps[|steps| - 1])
  }

  lemma StepKeepsInv(r: ConfigRow, step: Step)
    requires Inv(r)
    ensures Inv(Next(r, step))
    ensures InBounds(r, r.default) && !step.Rebound? ==> InBounds(Next(r, step), Next(r, step).default)
  {
  }

  /** Every run from a seeded row: bounds, settled rows have current = last good, pending rows have a time. */
  lemma {:induction false} RunKeepsInv(seed: Seed, steps: seq<Step>)
    requires seed.min <= seed.max
    ensures Inv(Run(Inserted(seed), steps))
    ensures (forall i :: 0 <= i < |steps| ==> !steps[i].Rebound?)
      ==> InBounds(Run(Inserted(seed), steps), Run(Inserted(seed), steps).default)
  {
    if steps != [] {
      var before := steps[..|steps| - 1];
      RunKeepsInv(seed, before);
      StepKeepsInv(Run(Inserted(seed), before), steps[|steps| - 1]);
    }
  }

  /** Replacing the bounds keeps the default inside them exactly when it already was inside the new ones. */
  lemma ReboundExact(r: ConfigRow, value: real, min: real, max: real, stepPct: real)
    requires Inv(r) && min <= max
    ensures var r' := Next(r, Rebound(value, min, max, stepPct));
      Inv(r') && (InBounds(r', r'.default) <==> min <= r.default <= max)
  {
  }

  /**
   The revert writes back the value of the snapshot it was given.  If an override landed in between, the
   row is left settled with current different from last good: it is sound exactly when the snapshot's
   value is still the row's last good value.
   */
  lemma RevertExact(r: ConfigRow, seen: ConfigRow, value: real, now: int, metrics: Metrics)
    requires Inv(r) && InBounds(r, value)
    ensures Inv(RevertUnpublished(ApplyChange(r, value, now, metrics), seen)) <==> seen.current == r.lastGood
  {
  }

  /** The evaluation's rollback has the same race: sound exactly when the snapshot's last good value is still the row's. */
  lemma RollbackExact(r: ConfigRow, seen: ConfigRow)
    requires Inv(r)
    ensures Inv(RolledBack(r, seen)) <==> seen.lastGood == r.lastGood
    ensures Inv(Accepted(r))
  {
  }

  /** An override between load and rollback leaves a settled row whose value is not its last good one. */
  lemma RollbackAfterOverrideBreaksInv(r: ConfigRow, manual: real)
    requires Inv(r) && r.pending && InBounds(r, manual) && manual != r.lastGood
    ensures var r' := RolledBack(Overridden(r, manual, None), r);
      !Inv(r') && !r'.pending && r'.current == r.lastGood && r'.lastGood == manual
  {
  }

  lemma RevertAfterOverrideBreaksInv(r: ConfigRow, value: real, now: int, metrics: Metrics, manual: real)
    requires Inv(r) && InBounds(r, value) && InBounds(r, manual) && manual != r.current
    ensures !Inv(RevertUnpublished(ApplyChange(Overridden(r, manual, None), value, now, metrics), r))
  {
  }

  // ── Rollbacks restore the value in force ──────────────────────────────

  /** The value at the latest moment the row was settled, carried over changes of bounds by clamping. */
  function InForce(r: ConfigRow, steps: seq<Step>): real {
    if steps == [] then r.lastGood
    else
      var before, step := steps[..|steps| - 1], steps[|steps| - 1];
      if !Run(r, steps).pending then Run(r, steps).current
      else if step.Reseed? && step.seed.min <= step.seed.max then Clamp(InForce(r, before), step.seed.min, step.seed.max)
      else InForce(r, before)
  }

  /** In every run `lastGood` is the value in force before the one change that is still unevaluated. */
  lemma {:induction false} LastGoodIsInForce(r: ConfigRow, steps: seq<Step>)
    requires Inv(r)
    ensures Inv(Run(r, steps)) && Run(r, steps).lastGood == InForce(r, steps)
  {
    if steps != [] {
      var before := steps[..|steps| - 1];
      LastGoodIsInForce(r, before);
      StepKeepsInv(Run(r, before), steps[|steps| - 1]);
    }
  }

  /**
   Both rollbacks, over all runs: a failed publish leaves the value as it was before the change, and a
   failed evaluation restores the value in force before it; the row is settled again either way, and while
   a change is pending no cycle touches the value.
   */
  lemma RollbacksRestore(r: ConfigRow, steps: seq<Step>, target: real, now: int, metrics: Metrics, tolerance: Tolerance, fate: Fate)
    requires Inv(r)
    ensures var row := Run(r, steps);
      && Next(row, Tune(target, now, metrics, Reverted)).current == row.current
      && Next(row, Tune(target, now, metrics, Reverted)).pending == row.pending
      && (row.pending ==> Next(row, Tune(target, now, metrics, fate)) == row)
      && (Due(row, now, tolerance) && Degraded(row, metrics, tolerance) ==>
            var row' := Next(row, Evaluate(now, metrics, tolerance));
            row'.current == InForce(r, steps) && !row'.pending)
  {
    LastGoodIsInForce(r, steps);
  }

  /** A change made on top of a manual override rolls back to the overriding value, whatever came before it. */
  lemma RollbackRestoresOverride(
      r: ConfigRow, steps: seq<Step>, value: real, default: Option<real>, target: real, now: int, metrics: Metrics,
      fate: Fate, later: int, outcome: Metrics, tolerance: Tolerance)
    requires Inv(r)
    ensures var row := Run(r, steps);
      var changed := Next(Next(row, Override(value, default)), Tune(target, now, metrics, fate));
      && Next(row, Override(value, default)).current == Clamp(value, row.min, row.max)
      && (Due(changed, later, tolerance) && Degraded(changed, outcome, tolerance) ==>
            Next(changed, Evaluate(later, outcome, tolerance)).current == Clamp(value, row.min, row.max))
  {
    LastGoodIsInForce(r, steps);
  }

  // ── Convergence ───────────────────────────────────────────────────────

  function Distance(r: ConfigRow, target: real): real { Abs(Clamp(target, r.min, r.max) - r.current) }

  function Positive(x: real): real { if x > 0.0 then x else 0.0 }

  /** `x` is the larger of the two. */
  predicate IsLarger(x: real, a: real, b: real) { (x == a || x == b) && x >= a && x >= b }

  /** `base` is what a step is a percentage of: the value, or near zero the larger of the default and one. */
  predicate IsBase(r: ConfigRow, base: real) {
    if r.current > 0.000001 then base == r.current
    else if r.current < -0.000001 then base == -r.current
    else IsLarger(base, if r.default < 0.0 then -r.default else r.default, 1.0)
  }

  /** `percent` is the row's step, or 12% if it has none. */
  predicate IsPercent(r: ConfigRow, percent: real) {
    (r.stepPct > 0.0 ==> percent == r.stepPct) && (r.stepPct <= 0.0 ==> percent == 0.12)
  }

  /** `most` is the largest step a row allows: that percentage of the base, and at least 0.0001. */
  predicate IsStepLimit(r: ConfigRow, base: real, percent: real, most: real) {
    IsBase(r, base) && IsPercent(r, percent) && IsLarger(most, base * percent, 0.0001)
  }

  function BaseOf(r: ConfigRow): real {
    if Abs(r.current) > EPSILON then Abs(r.current) else if Abs(r.default) > 1.0 then Abs(r.default) else 1.0
  }

  lemma BaseIsUnique(r: ConfigRow, base: real)
    ensures IsBase(r, base) <==> base == BaseOf(r)
  {
  }

  /** The code's step limit is that one. */
  lemma StepLimitIsMaxDelta(r: ConfigRow, base: real, percent: real)
    requires IsBase(r, base) && IsPercent(r, percent)
    ensures IsStepLimit(r, base, percent, MaxDelta(r.current, r.stepPct, r.default))
  {
    BaseIsUnique(r, base);
    DeltaOf(r.current, r.stepPct, r.default, base, percent);
  }

  lemma DeltaOf(current: real, pct: real, reference: real, base: real, percent: real)
    requires base == if Abs(current) > EPSILON then Abs(current) else if Abs(reference) > 1.0 then Abs(reference) else 1.0
    requires percent == if pct <= 0.0 then 0.12 else pct
    ensures MaxDelta(current, pct, reference) == if base * percent < MIN_STEP then MIN_STEP else base * percent
  {
  }

  lemma StepLimitIsUnique(r: ConfigRow, base: real, percent: real, most: real)
    requires IsStepLimit(r, base, percent, most)
    ensures most == MaxDelta(r.current, r.stepPct, r.default)
  {
    StepLimitIsMaxDelta(r, base, percent);
  }

  /**
   The exact law of one change: it stays between the old value and the clamped target, it moves at most the row's
   percentage, and the remaining distance is what is left after subtracting that; the skip fires exactly within
   EPSILON.
   */
  lemma StepLaw(r: ConfigRow, target: real, base: real, percent: real, most: real)
    requires InBounds(r, r.current) && IsStepLimit(r, base, percent, most)
    ensures var goal, next := Clamp(target, r.min, r.max), Bounded(r, target);
      && (r.current <= next <= goal || goal <= next <= r.current)
      && Abs(next - r.current) <= most
      && Abs(goal - next) == Positive(Distance(r, target) - most)
      && (Proposal(r, target).None? <==> !r.enabled || r.pending || Distance(r, target) < 0.000001)
  {
    StepLimitIsUnique(r, base, percent, most);
    AtLeastMinStep(r);
    LawForStep(r, target, most);
  }

  lemma AtLeastMinStep(r: ConfigRow)
    ensures MaxDelta(r.current, r.stepPct, r.default) >= MIN_STEP
  {
  }

  lemma LawForStep(r: ConfigRow, target: real, most: real)
    requires InBounds(r, r.current) && most == MaxDelta(r.current, r.stepPct, r.default) && most >= MIN_STEP
    ensures var goal, next := Clamp(target, r.min, r.max), Bounded(r, target);
      && (r.current <= next <= goal || goal <= next <= r.current)
      && Abs(next - r.current) <= most
      && Abs(goal - next) == Positive(Distance(r, target) - most)
      && (Abs(next - r.current) < EPSILON <==> Distance(r, target) < EPSILON)
  {
  }

  /** A published change and the evaluation that follows it. */
  datatype Cycle = Cycle(now: int, metrics: Metrics, evaluatedAt: int, outcome: Metrics, tolerance: Tolerance)

  /** The evaluation is due and the outcome is within tolerance of the metrics stored with the change. */
  predicate Passing(c: Cycle) {
    && Minutes(c.evaluatedAt - c.now) >= c.tolerance.delayMinutes
    && c.outcome.fillRate + c.tolerance.fillRate >= c.metrics.fillRate
    && c.outcome.pnl >= c.metrics.pnl - c.tolerance.pnl
  }

  function Round(r: ConfigRow, target: real, c: Cycle): ConfigRow {
    Evaluated(Tuned(r, target, c.now, c.metrics, Published), c.evaluatedAt, c.outcome, c.tolerance)
  }

  function Rounds(r: ConfigRow, target: real, cycles: seq<Cycle>): ConfigRow {
    if cycles == [] then r else Round(Rounds(r, target, cycles[..|cycles| - 1]), target, cycles[|cycles| - 1])
  }

  predicate Settled(r: ConfigRow) { Inv(r) && r.enabled && !r.pending }

  ghost predicate AllPass(cycles: seq<Cycle>) { forall i :: 0 <= i < |cycles| ==> Passing(cycles[i]) }

  lemma RoundLaw(r: ConfigRow, target: real, c: Cycle)
    requires Settled(r) && Passing(c)
    ensures var r' := Round(r, target, c);
      && Settled(r') && r'.min == r.min && r'.max == r.max
      && (if Distance(r, target) < EPSILON then r' == r
          else r'.current == Bounded(r, target) && r'.lastGood == r'.current)
  {
    AtLeastMinStep(r);
    LawForStep(r, target, MaxDelta(r.current, r.stepPct, r.default));
  }

  /** Distances only shrink, and by at least the smallest step per change until the skip takes over. */
  lemma {:induction false} RoundsConverge(r: ConfigRow, target: real, cycles: seq<Cycle>)
    requires Settled(r) && AllPass(cycles)
    ensures var r' := Rounds(r, target, cycles);
      && Settled(r') && r'.min == r.min && r'.max == r.max
      && Distance(r', target) <= Distance(r, target)
      && (Distance(r', target) < EPSILON || Distance(r', target) <= Distance(r, target) - |cycles| as real * MIN_STEP)
  {
    var n := |cycles|;
    if n > 0 {
      RoundsConverge(r, target, cycles[..n - 1]);
      var r1 := Rounds(r, target, cycles[..n - 1]);
      RoundLaw(r1, target, cycles[n - 1]);
      AtLeastMinStep(r1);
      LawForStep(r1, target, MaxDelta(r1.current, r1.stepPct, r1.default));
      assert n as real * MIN_STEP == (n - 1) as real * MIN_STEP + MIN_STEP;
    }
  }

  /** After distance / 0.0001 rounds, rounded up, the row is within EPSILON of the clamped target and stays put. */
  lemma {:induction false} ReachesTarget(r: ConfigRow, target: real, cycles: seq<Cycle>, more: seq<Cycle>)
    requires Settled(r) && AllPass(cycles) && AllPass(more) && Distance(r, target) <= |cycles| as real * 0.0001
    ensures var r' := Rounds(r, target, cycles);
      Distance(r', target) < 0.000001 && Rounds(r, target, cycles + more) == r'
    decreases |more|
  {
    RoundsConverge(r, target, cycles);
    if more == [] {
      assert cycles + more == cycles;
    } else {
      var last := |more| - 1;
      ReachesTarget(r, target, cycles, more[..last]);
      RoundLaw(Rounds(r, target, cycles), target, more[last]);
      assert (cycles + more)[..|cycles + more| - 1] == cycles + more[..last];
    }
  }
}
