/**
 The shared exposure limit: two executors read the total, decide, and insert their position later, with no
 lock between the two steps.

 A row's cost (stored quantity times stored entry prices) never changes after the insert, because the
 UPDATE of a position writes neither; only its state does.
 */
module Exposure {
  import opened Positions

  datatype Holding = Holding(cost: real, state: State)

  /** Pending, Open, ExitReady and Closing: the states that get_total_active_exposure sums over. */
  predicate Active(h: Holding) { h.state in {Pending, Open, ExitReady, Closing} }

  function Weight(h: Holding): real { if Active(h) then h.cost else 0.0 }

  function Total(rows: seq<Holding>): real {
    if rows == [] then 0.0 else Total(rows[..|rows| - 1]) + Weight(rows[|rows| - 1])
  }

  /** A position counts from its insert until its exit ends, in whatever way; failed and stalled ones do not count. */
  lemma CountedStates(cost: real)
    ensures Weight(Holding(cost, Pending)) == cost && Weight(Holding(cost, Open)) == cost
    ensures Weight(Holding(cost, ExitReady)) == cost && Weight(Holding(cost, Closing)) == cost
    ensures Weight(Holding(cost, Closed)) == 0.0 && Weight(Holding(cost, EntryFailed)) == 0.0
    ensures Weight(Holding(cost, ExitFailed)) == 0.0 && Weight(Holding(cost, Stalled)) == 0.0
  {
  }

  datatype Task = Arb | Quant

  /** The limit and the largest position of each executor. */
  datatype Limits = Limits(total: real, arb: real, quant: real) {
    function Largest(t: Task): real { if t.Arb? then arb else quant }
  }

  /** Position ids are indices; an executor is `cleared` between its check and its insert. */
  datatype Sys = Sys(rows: seq<Holding>, cleared: set<Task>)

  datatype Step =
    | Check(task: Task)              // the query answers
    | CheckUnanswered                // the query fails: the arb executor goes on, the quant executor skips
    | Abandon(task: Task)            // any later skip
    | Insert(task: Task, cost: real)
    | Move(id: nat, to: State)       // any state change of any position, by any actor

  function Next(s: Sys, step: Step, limits: Limits): Sys {
    match step
    case Check(t) => if t !in s.cleared && Total(s.rows) < limits.total then s.(cleared := s.cleared + {t}) else s
    case CheckUnanswered => s.(cleared := s.cleared + {Arb})
    case Abandon(t) => s.(cleared := s.cleared - {t})
    case Insert(t, cost) =>
      if t in s.cleared && 0.0 < cost <= limits.Largest(t)
      then Sys(s.rows + [Holding(cost, Pending)], s.cleared - {t}) else s
    case Move(id, to) => if id < |s.rows| then s.(rows := s.rows[id := s.rows[id].(state := to)]) else s
  }

  function Run(s: Sys, steps: seq<Step>, limits: Limits): Sys
    decreases |steps|
  {
    if steps == [] then s else Run(Next(s, steps[0], limits), steps[1..], limits)
  }

  /** What a step lets past the check: an unanswered query, or a position that becomes active again. */
  function Unchecked(s: Sys, step: Step, limits: Limits): real {
    match step
    case CheckUnanswered => if Arb in s.cleared then 0.0 else limits.arb
    case Move(id, to) =>
      if id < |s.rows| && !Active(s.rows[id]) then Weight(s.rows[id].(state := to)) else 0.0
    case _ => 0.0
  }

  function Leak(s: Sys, steps: seq<Step>, limits: Limits): real
    decreases |steps|
  {
    if steps == [] then 0.0 else Unchecked(s, steps[0], limits) + Leak(Next(s, steps[0], limits), steps[1..], limits)
  }

  /** A check lets its executor insert one position and no second one; an abandoned check lets it insert none. */
  lemma OneInsertPerCheck(s: Sys, t: Task, cost: real, limits: Limits)
    requires t !in s.cleared && Total(s.rows) < limits.total && 0.0 < cost <= limits.Largest(t)
    ensures var checked := Next(s, Check(t), limits);
      var inserted := Next(checked, Insert(t, cost), limits);
      && inserted.rows == s.rows + [Holding(cost, Pending)] && inserted.cleared == s.cleared
      && Next(inserted, Insert(t, cost), limits) == inserted
      && Next(checked, Abandon(t), limits) == s && Next(Next(checked, Abandon(t), limits), Insert(t, cost), limits) == s
  {
    assert s.cleared + {t} - {t} == s.cleared;
  }

  // ── The sum ───────────────────────────────────────────────────────────

  lemma TotalAppend(rows: seq<Holding>, h: Holding)
    ensures Total(rows + [h]) == Total(rows) + Weight(h)
  {
    assert (rows + [h])[..|rows|] == rows;
  }

  lemma {:induction false} TotalUpdate(rows: seq<Holding>, id: nat, h: Holding)
    requires id < |rows|
    ensures Total(rows[id := h]) == Total(rows) - Weight(rows[id]) + Weight(h)
  {
    var last := |rows| - 1;
    if id == last {
      assert rows[id := h][..last] == rows[..last];
    } else {
      assert rows[id := h][..last] == rows[..last][id := h];
      TotalUpdate(rows[..last], id, h);
    }
  }

  // ── The bound ─────────────────────────────────────────────────────────

  ghost predicate Sized(s: Sys) { forall i :: 0 <= i < |s.rows| ==> s.rows[i].cost >= 0.0 }

  /** Room is kept for every executor that has not used its check yet. */
  ghost predicate Bounded(s: Sys, limits: Limits, leak: real) {
    && Sized(s) && limits.arb >= 0.0 && limits.quant >= 0.0
    && Total(s.rows)
       < limits.total + leak
         + (if Arb in s.cleared then 0.0 else limits.arb) + (if Quant in s.cleared then 0.0 else limits.quant)
  }

  lemma InsertBounded(s: Sys, t: Task, cost: real, limits: Limits, leak: real)
    requires leak >= 0.0 && Bounded(s, limits, leak) && t in s.cleared && 0.0 < cost <= limits.Largest(t)
    ensures Bounded(Sys(s.rows + [Holding(cost, Pending)], s.cleared - {t}), limits, leak)
  {
    var s' := Sys(s.rows + [Holding(cost, Pending)], s.cleared - {t});
    TotalAppend(s.rows, Holding(cost, Pending));
    assert Total(s'.rows) == Total(s.rows) + cost;
    if t == Arb {
      assert (Quant in s'.cleared) == (Quant in s.cleared);
    } else {
      assert t == Quant && (Arb in s'.cleared) == (Arb in s.cleared);
    }
  }

  lemma MoveBounded(s: Sys, id: nat, to: State, limits: Limits, leak: real)
    requires leak >= 0.0 && Bounded(s, limits, leak) && id < |s.rows|
    ensures Unchecked(s, Move(id, to), limits) >= 0.0
    ensures Bounded(s.(rows := s.rows[id := s.rows[id].(state := to)]), limits, leak + Unchecked(s, Move(id, to), limits))
  {
    TotalUpdate(s.rows, id, s.rows[id].(state := to));
  }

  lemma StepBounded(s: Sys, step: Step, limits: Limits, leak: real)
    requires leak >= 0.0 && Bounded(s, limits, leak)
    ensures Unchecked(s, step, limits) >= 0.0
    ensures Bounded(Next(s, step, limits), limits, leak + Unchecked(s, step, limits))
  {
    match step
    case Check(_) =>
    case CheckUnanswered =>
    case Abandon(_) =>
    case Insert(t, cost) => if t in s.cleared && 0.0 < cost <= limits.Largest(t) { InsertBounded(s, t, cost, limits, leak); }
    case Move(id, to) => if id < |s.rows| { MoveBounded(s, id, to, limits, leak); }
  }

  lemma {:induction false} RunBounded(s: Sys, steps: seq<Step>, limits: Limits, leak: real)
    requires leak >= 0.0 && Bounded(s, limits, leak)
    ensures Bounded(Run(s, steps, limits), limits, leak + Leak(s, steps, limits))
    decreases |steps|
  {
    if steps != [] {
      StepBounded(s, steps[0], limits, leak);
      RunBounded(Next(s, steps[0], limits), steps[1..], limits, leak + Unchecked(s, steps[0], limits));
    }
  }

  /**
   Every interleaving of the two executors with any state changes: the total stays below the limit plus
   one largest position per executor plus what was let past the check.
   */
  lemma ExposureBound(s: Sys, steps: seq<Step>, limits: Limits)
    requires Bounded(s, limits, 0.0)
    ensures Total(Run(s, steps, limits).rows) < limits.total + limits.arb + limits.quant + Leak(s, steps, limits)
  {
    RunBounded(s, steps, limits, 0.0);
  }

  /** The two steps that let something past the check. */
  predicate Bypasses(s: Sys, step: Step) { Unanswered(s, step) || Reactivates(s, step) }

  predicate Unanswered(s: Sys, step: Step) { step.CheckUnanswered? && Arb !in s.cleared }

  predicate Reactivates(s: Sys, step: Step) {
    step.Move? && step.id < |s.rows| && !Active(s.rows[step.id]) && Active(s.rows[step.id].(state := step.to))
  }

  ghost predicate Checked(s: Sys, steps: seq<Step>, limits: Limits)
    decreases |steps|
  {
    steps == [] || (!Bypasses(s, steps[0]) && Checked(Next(s, steps[0], limits), steps[1..], limits))
  }

  /** In runs where every query answers and nothing becomes active again, the plain bound holds. */
  lemma {:induction false} CheckedRunsDoNotLeak(s: Sys, steps: seq<Step>, limits: Limits)
    requires Checked(s, steps, limits)
    ensures Leak(s, steps, limits) == 0.0
    decreases |steps|
  {
    if steps != [] {
      CheckedRunsDoNotLeak(Next(s, steps[0], limits), steps[1..], limits);
    }
  }

  lemma CheckedExposureBound(s: Sys, steps: seq<Step>, limits: Limits)
    requires Bounded(s, limits, 0.0) && Checked(s, steps, limits)
    ensures Total(Run(s, steps, limits).rows) < limits.total + limits.arb + limits.quant
  {
    CheckedRunsDoNotLeak(s, steps, limits);
    ExposureBound(s, steps, limits);
  }

  lemma {:induction false} RunConcat(s: Sys, a: seq<Step>, b: seq<Step>, limits: Limits)
    ensures Run(s, a + b, limits) == Run(Run(s, a, limits), b, limits)
    decreases |a|
  {
    if a == [] {
      assert a + b == b;
    } else {
      assert (a + b)[0] == a[0] && (a + b)[1..] == a[1..] + b;
      RunConcat(Next(s, a[0], limits), a[1..], b, limits);
    }
  }

  lemma RunPrefix(s: Sys, a: Step, rest: seq<Step>, limits: Limits)
    ensures Run(s, [a] + rest, limits) == Run(Next(s, a, limits), rest, limits)
    ensures Checked(s, [a] + rest, limits) <==> !Bypasses(s, a) && Checked(Next(s, a, limits), rest, limits)
  {
    assert ([a] + rest)[1..] == rest;
  }

  lemma RunOne(s: Sys, a: Step, limits: Limits)
    ensures Run(s, [a], limits) == Next(s, a, limits)
  {
    assert [a][1..] == [];
    assert Run(Next(s, a, limits), [], limits) == Next(s, a, limits);
  }

  function BothPass(limits: Limits): seq<Step> {
    [Check(Arb)] + ([Check(Quant)] + ([Insert(Arb, limits.arb)] + ([Insert(Quant, limits.quant)] + [])))
  }

  lemma BothPassRun(rows: seq<Holding>, limits: Limits)
    requires Total(rows) < limits.total && limits.arb > 0.0 && limits.quant > 0.0
    ensures Checked(Sys(rows, {}), BothPass(limits), limits)
    ensures Run(Sys(rows, {}), BothPass(limits), limits).rows
      == rows + [Holding(limits.arb, Pending)] + [Holding(limits.quant, Pending)]
  {
    var a, q := Insert(Arb, limits.arb), Insert(Quant, limits.quant);
    var s2, s3 := Sys(rows, {Arb, Quant}), Sys(rows + [Holding(limits.arb, Pending)], {Quant});
    RunPrefix(Sys(rows, {}), Check(Arb), [Check(Quant)] + ([a] + ([q] + [])), limits);
    assert Next(Sys(rows, {}), Check(Arb), limits) == Sys(rows, {Arb});
    RunPrefix(Sys(rows, {Arb}), Check(Quant), [a] + ([q] + []), limits);
    assert Next(Sys(rows, {Arb}), Check(Quant), limits) == s2;
    RunPrefix(s2, a, [q] + [], limits);
    assert Next(s2, a, limits) == s3;
    RunPrefix(s3, q, [], limits);
  }

  /** No smaller bound would do: both executors can pass the check on the same total, however close to the limit. */
  lemma BoundIsTight(rows: seq<Holding>, limits: Limits)
    requires Total(rows) < limits.total && limits.arb > 0.0 && limits.quant > 0.0
    ensures Checked(Sys(rows, {}), BothPass(limits), limits)
    ensures Total(Run(Sys(rows, {}), BothPass(limits), limits).rows) == Total(rows) + limits.arb + limits.quant
  {
    BothPassRun(rows, limits);
    TotalAppend(rows, Holding(limits.arb, Pending));
    TotalAppend(rows + [Holding(limits.arb, Pending)], Holding(limits.quant, Pending));
  }

  // ── Without that condition there is no bound at all ───────────────────

  function Failed(n: nat, cost: real): seq<Holding> { seq(n, i => Holding(cost, ExitFailed)) }

  /** One position is opened and fails to exit: it no longer counts. */
  function OpenAndFail(id: nat, limits: Limits): seq<Step> {
    [Check(Arb)] + ([Insert(Arb, limits.arb)] + Fail(id))
  }

  function Fail(id: nat): seq<Step> {
    [Move(id, Open)] + ([Move(id, ExitReady)] + ([Move(id, Closing)] + ([Move(id, ExitFailed)] + [])))
  }

  function OpenAndFailAll(n: nat, limits: Limits): seq<Step> {
    if n == 0 then [] else OpenAndFailAll(n - 1, limits) + OpenAndFail(n - 1, limits)
  }

  /** The retry sweep puts every failed exit back to ExitReady, without a check. */
  function RequeueAll(n: nat): seq<Step> {
    if n == 0 then [] else RequeueAll(n - 1) + [Move(n - 1, ExitReady)]
  }

  lemma {:induction false} FailedDoNotCount(n: nat, cost: real)
    ensures Total(Failed(n, cost)) == 0.0
  {
    if n > 0 {
      assert Failed(n, cost)[..n - 1] == Failed(n - 1, cost);
      FailedDoNotCount(n - 1, cost);
    }
  }

  lemma {:induction false} FailuresPileUp(n: nat, limits: Limits)
    requires limits.total > 0.0 && limits.arb > 0.0
    ensures Run(Sys([], {}), OpenAndFailAll(n, limits), limits) == Sys(Failed(n, limits.arb), {})
  {
    if n > 0 {
      FailuresPileUp(n - 1, limits);
      RunConcat(Sys([], {}), OpenAndFailAll(n - 1, limits), OpenAndFail(n - 1, limits), limits);
      FailedDoNotCount(n - 1, limits.arb);
      OneMoreFailure(n - 1, limits);
    }
  }

  lemma OneMoreFailure(n: nat, limits: Limits)
    requires limits.arb > 0.0 && Total(Failed(n, limits.arb)) < limits.total
    ensures Run(Sys(Failed(n, limits.arb), {}), OpenAndFail(n, limits), limits) == Sys(Failed(n + 1, limits.arb), {})
  {
    var s, insert := Sys(Failed(n, limits.arb), {}), Insert(Arb, limits.arb);
    var s1 := Next(s, Check(Arb), limits);
    RunPrefix(s, Check(Arb), [insert] + Fail(n), limits);
    RunPrefix(s1, insert, Fail(n), limits);
    assert Next(s1, insert, limits) == Sys(Failed(n, limits.arb) + [Holding(limits.arb, Pending)], {});
    FailRun(Failed(n, limits.arb), Holding(limits.arb, Pending), limits);
    assert Failed(n, limits.arb) + [Holding(limits.arb, ExitFailed)] == Failed(n + 1, limits.arb);
  }

  lemma FailRun(rows: seq<Holding>, h: Holding, limits: Limits)
    ensures Run(Sys(rows + [h], {}), Fail(|rows|), limits) == Sys(rows + [h.(state := ExitFailed)], {})
  {
    var id := |rows|;
    forall state: State, to: State
      ensures Next(Sys(rows + [h.(state := state)], {}), Move(id, to), limits) == Sys(rows + [h.(state := to)], {})
    {
      assert (rows + [h.(state := state)])[id := h.(state := to)] == rows + [h.(state := to)];
    }
    assert h.(state := h.state) == h;
    RunPrefix(Sys(rows + [h], {}), Move(id, Open), [Move(id, ExitReady)] + ([Move(id, Closing)] + ([Move(id, ExitFailed)] + [])), limits);
    RunPrefix(Sys(rows + [h.(state := Open)], {}), Move(id, ExitReady), [Move(id, Closing)] + ([Move(id, ExitFailed)] + []), limits);
    RunPrefix(Sys(rows + [h.(state := ExitReady)], {}), Move(id, Closing), [Move(id, ExitFailed)] + [], limits);
    RunPrefix(Sys(rows + [h.(state := Closing)], {}), Move(id, ExitFailed), [], limits);
  }

  function Repeated(k: nat, x: real): real { if k == 0 then 0.0 else Repeated(k - 1, x) + x }

  lemma {:induction false} RepeatedIsProduct(k: nat, x: real)
    ensures Repeated(k, x) == k as real * x
  {
    if k > 0 {
      RepeatedIsProduct(k - 1, x);
      var n := (k - 1) as real;
      assert k as real == n + 1.0;
      assert (n + 1.0) * x == n * x + x;
    }
  }

  /** After requeueing the first `k` of `n` failed positions. */
  lemma {:induction false} RequeuedCount(n: nat, k: nat, limits: Limits)
    requires k <= n
    ensures var s := Run(Sys(Failed(n, limits.arb), {}), RequeueAll(k), limits);
      |s.rows| == n && s.cleared == {}
      && (forall i :: k <= i < n ==> s.rows[i] == Holding(limits.arb, ExitFailed))
      && Total(s.rows) == Repeated(k, limits.arb)
  {
    var s0 := Sys(Failed(n, limits.arb), {});
    if k == 0 {
      FailedDoNotCount(n, limits.arb);
    } else {
      RequeuedCount(n, k - 1, limits);
      var s := Run(s0, RequeueAll(k - 1), limits);
      RunConcat(s0, RequeueAll(k - 1), [Move(k - 1, ExitReady)], limits);
      RunOne(s, Move(k - 1, ExitReady), limits);
      TotalUpdate(s.rows, k - 1, Holding(limits.arb, ExitReady));
    }
  }

  /** How many largest positions exceed an amount. */
  function Enough(limits: Limits, bound: real): (n: nat)
    requires limits.arb > 0.0
  {
    if bound < 0.0 then 1 else (bound / limits.arb).Floor + 2
  }

  lemma EnoughExceeds(limits: Limits, bound: real)
    requires limits.arb > 0.0
    ensures Repeated(Enough(limits, bound), limits.arb) > bound
  {
    var n := Enough(limits, bound);
    RepeatedIsProduct(n, limits.arb);
    if bound >= 0.0 {
      assert bound / limits.arb < n as real;
      assert (bound / limits.arb) * limits.arb == bound;
      assert (bound / limits.arb) * limits.arb < n as real * limits.arb;
    }
  }

  function RetryRun(n: nat, limits: Limits): seq<Step> { OpenAndFailAll(n, limits) + RequeueAll(n) }

  /** Retries alone: whatever the limit, some run of answered checks takes the total past any given amount. */
  lemma RetriesHaveNoBound(limits: Limits, bound: real)
    requires limits.total > 0.0 && limits.arb > 0.0
    ensures var steps := RetryRun(Enough(limits, bound), limits);
      Permitted(Sys([], {}), steps, limits, true, false) && Total(Run(Sys([], {}), steps, limits).rows) > bound
  {
    var n := Enough(limits, bound);
    EnoughExceeds(limits, bound);
    FailuresPileUp(n, limits);
    RequeuedCount(n, n, limits);
    RunConcat(Sys([], {}), OpenAndFailAll(n, limits), RequeueAll(n), limits);
    NeverUnanswered(n, limits);
    AnsweredIsPermitted(Sys([], {}), RetryRun(n, limits), limits);
  }

  lemma {:induction false} NeverUnanswered(n: nat, limits: Limits)
    ensures forall i :: 0 <= i < |OpenAndFailAll(n, limits)| ==> !OpenAndFailAll(n, limits)[i].CheckUnanswered?
    ensures forall i :: 0 <= i < |RequeueAll(n)| ==> !RequeueAll(n)[i].CheckUnanswered?
  {
    if n > 0 {
      NeverUnanswered(n - 1, limits);
    }
  }

  // ── Exactly when the limit limits ─────────────────────────────────────

  /** The run lets something past the check only in the ways allowed. */
  ghost predicate Permitted(s: Sys, steps: seq<Step>, limits: Limits, requeue: bool, unanswered: bool)
    decreases |steps|
  {
    steps == [] ||
    (&& (Unanswered(s, steps[0]) ==> unanswered) && (Reactivates(s, steps[0]) ==> requeue)
     && Permitted(Next(s, steps[0], limits), steps[1..], limits, requeue, unanswered))
  }

  lemma {:induction false} AnsweredIsPermitted(s: Sys, steps: seq<Step>, limits: Limits)
    requires forall i :: 0 <= i < |steps| ==> !steps[i].CheckUnanswered?
    ensures Permitted(s, steps, limits, true, false)
    decreases |steps|
  {
    if steps != [] {
      AnsweredIsPermitted(Next(s, steps[0], limits), steps[1..], limits);
    }
  }

  lemma {:induction false} UnmovedIsPermitted(s: Sys, steps: seq<Step>, limits: Limits)
    requires forall i :: 0 <= i < |steps| ==> !steps[i].Move?
    ensures Permitted(s, steps, limits, false, true)
    decreases |steps|
  {
    if steps != [] {
      UnmovedIsPermitted(Next(s, steps[0], limits), steps[1..], limits);
    }
  }

  lemma {:induction false} MorePermitted(s: Sys, steps: seq<Step>, limits: Limits, requeue: bool, unanswered: bool, r: bool, u: bool)
    requires Permitted(s, steps, limits, requeue, unanswered) && (requeue ==> r) && (unanswered ==> u)
    ensures Permitted(s, steps, limits, r, u)
    decreases |steps|
  {
    if steps != [] {
      MorePermitted(Next(s, steps[0], limits), steps[1..], limits, requeue, unanswered, r, u);
    }
  }

  lemma {:induction false} NothingPermittedIsChecked(s: Sys, steps: seq<Step>, limits: Limits)
    requires Permitted(s, steps, limits, false, false)
    ensures Checked(s, steps, limits)
    decreases |steps|
  {
    if steps != [] {
      NothingPermittedIsChecked(Next(s, steps[0], limits), steps[1..], limits);
    }
  }

  /** The arb executor goes on whenever the query fails. */
  function BlindRun(n: nat, limits: Limits): seq<Step> {
    if n == 0 then [] else BlindRun(n - 1, limits) + [CheckUnanswered, Insert(Arb, limits.arb)]
  }

  lemma {:induction false} BlindRunDoesNotMove(n: nat, limits: Limits)
    ensures forall i :: 0 <= i < |BlindRun(n, limits)| ==> !BlindRun(n, limits)[i].Move?
  {
    if n > 0 {
      BlindRunDoesNotMove(n - 1, limits);
    }
  }

  lemma BlindEntry(s: Sys, limits: Limits)
    requires limits.arb > 0.0 && s.cleared == {}
    ensures Run(s, [CheckUnanswered, Insert(Arb, limits.arb)], limits) == Sys(s.rows + [Holding(limits.arb, Pending)], {})
  {
    var insert := Insert(Arb, limits.arb);
    assert [CheckUnanswered, insert] == [CheckUnanswered] + [insert];
    RunPrefix(s, CheckUnanswered, [insert], limits);
    assert Next(s, CheckUnanswered, limits) == Sys(s.rows, {Arb});
    RunOne(Sys(s.rows, {Arb}), insert, limits);
    assert {Arb} - {Arb} == {};
  }

  lemma {:induction false} BlindRunTotal(n: nat, limits: Limits)
    requires limits.arb > 0.0
    ensures var s := Run(Sys([], {}), BlindRun(n, limits), limits);
      s.cleared == {} && Total(s.rows) == Repeated(n, limits.arb)
  {
    if n > 0 {
      BlindRunTotal(n - 1, limits);
      var s := Run(Sys([], {}), BlindRun(n - 1, limits), limits);
      RunConcat(Sys([], {}), BlindRun(n - 1, limits), [CheckUnanswered, Insert(Arb, limits.arb)], limits);
      BlindEntry(s, limits);
      TotalAppend(s.rows, Holding(limits.arb, Pending));
    }
  }

  /** Unanswered queries alone: some run without a single state change takes the total past any given amount. */
  lemma UnansweredHaveNoBound(limits: Limits, bound: real)
    requires limits.arb > 0.0
    ensures var steps := BlindRun(Enough(limits, bound), limits);
      Permitted(Sys([], {}), steps, limits, false, true) && Total(Run(Sys([], {}), steps, limits).rows) > bound
  {
    EnoughExceeds(limits, bound);
    BlindRunTotal(Enough(limits, bound), limits);
    BlindRunDoesNotMove(Enough(limits, bound), limits);
    UnmovedIsPermitted(Sys([], {}), BlindRun(Enough(limits, bound), limits), limits);
  }

  ghost predicate BoundedBy(limits: Limits, requeue: bool, unanswered: bool, bound: real) {
    forall steps: seq<Step> ::
      Permitted(Sys([], {}), steps, limits, requeue, unanswered) ==> Total(Run(Sys([], {}), steps, limits).rows) < bound
  }

  /**
   From an empty table: the limit plus one largest position per executor bounds every run exactly when neither
   bypass can occur; with either of them no amount at all bounds every run.
   */
  lemma LimitHoldsExact(limits: Limits, requeue: bool, unanswered: bool, bound: real)
    requires limits.total > 0.0 && limits.arb > 0.0 && limits.quant >= 0.0
    ensures BoundedBy(limits, requeue, unanswered, limits.total + limits.arb + limits.quant) <==> !requeue && !unanswered
    ensures BoundedBy(limits, requeue, unanswered, bound) ==> !requeue && !unanswered
  {
    if requeue || unanswered {
      NotBounded(limits, requeue, unanswered, bound);
      NotBounded(limits, requeue, unanswered, limits.total + limits.arb + limits.quant);
    } else {
      forall steps: seq<Step> | Permitted(Sys([], {}), steps, limits, requeue, unanswered)
        ensures Total(Run(Sys([], {}), steps, limits).rows) < limits.total + limits.arb + limits.quant
      {
        NothingPermittedIsChecked(Sys([], {}), steps, limits);
        CheckedExposureBound(Sys([], {}), steps, limits);
      }
    }
  }

  lemma NotBounded(limits: Limits, requeue: bool, unanswered: bool, bound: real)
    requires limits.total > 0.0 && limits.arb > 0.0 && (requeue || unanswered)
    ensures !BoundedBy(limits, requeue, unanswered, bound)
  {
    if requeue {
      RetriesHaveNoBound(limits, bound);
      MorePermitted(Sys([], {}), RetryRun(Enough(limits, bound), limits), limits, true, false, requeue, unanswered);
    } else {
      UnansweredHaveNoBound(limits, bound);
    }
  }
}
