/**
 Learning rollouts: how the active rollouts of one scope combine into one decision, and the guardrails that
 watch them.  Model scores are inputs: each rollout carries the action its model recommends, if any.
 */
module Rollouts {
  import opened Positions

  /** `action` is None when the model is not loaded or gives no score; `maxReduction` is the optional bound. */
  datatype Rollout = Rollout(
    mode: string, modelKey: string, target: string, authority: string, action: Option<string>, maxReduction: Option<real>)

  datatype Decision = Decision(skipReason: Option<string>, multiplier: real)

  function Clamp(x: real, lo: real, hi: real): real { if x < lo then lo else if x > hi then hi else x }

  function SkipText(r: Rollout): string { "learning_rollout:" + r.mode + ":" + r.modelKey + ":" + r.target }

  predicate CanReject(authority: string) { authority == "tail_reject" || authority == "full" }
  predicate CanResize(authority: string) { authority == "size_adjust" || authority == "full" }

  predicate Rejects(r: Rollout) { CanReject(r.authority) && r.action == Some("skip") }

  predicate Resizes(r: Rollout) {
    CanResize(r.authority) && r.action in {Some("downsize"), Some("deprioritize"), Some("skip")}
  }

  function Factor(r: Rollout): real {
    1.0 - Clamp(if r.maxReduction.Some? then r.maxReduction.value else 0.2, 0.0, 0.95)
  }

  /** What each level of authority may do; no other level may do anything. */
  lemma AuthorityTable(authority: string)
    ensures CanReject(authority) <==> authority in {"tail_reject", "full"}
    ensures CanResize(authority) <==> authority in {"size_adjust", "full"}
  {
  }

  /** The reason of a skip starts with the mode, ends with the target, and names the model in between. */
  lemma SkipTextParts(r: Rollout)
    ensures var t, head := SkipText(r), "learning_rollout:" + r.mode;
      && |t| == |head| + |r.modelKey| + |r.target| + 2
      && t[..|head|] == head && t[|t| - |r.target|..] == r.target
      && t[|head| + 1..|head| + 1 + |r.modelKey|] == r.modelKey
  {
  }

  /** Which scores reject and which resize; a missing score, or any other action, does neither. */
  lemma ActionTable(r: Rollout)
    ensures Rejects(r) ==> r.action == Some("skip")
    ensures r.authority == "full" && r.action == Some("skip") ==> Rejects(r) && Resizes(r)
    ensures r.authority == "tail_reject" && r.action == Some("skip") ==> Rejects(r) && !Resizes(r)
    ensures r.authority in {"size_adjust", "full"} && r.action in {Some("downsize"), Some("deprioritize")} ==> Resizes(r) && !Rejects(r)
    ensures r.action.None? ==> !Rejects(r) && !Resizes(r)
    ensures Resizes(r) ==> r.action.value in {"downsize", "deprioritize", "skip"}
  {
  }

  /** A rollout's factor: one fifth off by default, what its bound says up to 95%, and never an increase. */
  lemma FactorLaw(r: Rollout)
    ensures r.maxReduction.None? ==> Factor(r) == 0.8
    ensures r.maxReduction.Some? && 0.0 <= r.maxReduction.value <= 0.95 ==> Factor(r) == 1.0 - r.maxReduction.value
    ensures r.maxReduction.Some? && r.maxReduction.value < 0.0 ==> Factor(r) == 1.0
    ensures r.maxReduction.Some? && r.maxReduction.value > 0.95 ==> Factor(r) == 0.05
  {
  }

  // ── What the decision means, without the loop ─────────────────────────

  ghost predicate SomeReject(rollouts: seq<Rollout>) { exists i :: 0 <= i < |rollouts| && Rejects(rollouts[i]) }

  /** `m` is the smallest factor among the rollouts with resize authority and an adverse score, or 1 without any. */
  ghost predicate SmallestFactor(rollouts: seq<Rollout>, m: real) {
    && (forall i :: 0 <= i < |rollouts| && Resizes(rollouts[i]) ==> m <= Factor(rollouts[i]))
    && (m == 1.0 || exists i :: 0 <= i < |rollouts| && Resizes(rollouts[i]) && m == Factor(rollouts[i]))
  }

  /**
   The loop with its early return.  A signal is skipped exactly when some rollout with reject authority
   scores "skip", and the reason is the first such; otherwise the multiplier is the smallest factor.
   */
  method Evaluate(live: bool, rollouts: seq<Rollout>) returns (d: Decision)
    ensures d.skipReason.Some? <==> live && SomeReject(rollouts)
    ensures d.skipReason.Some? ==>
      exists i :: 0 <= i < |rollouts| && Rejects(rollouts[i]) && !SomeReject(rollouts[..i])
        && d.skipReason.value == SkipText(rollouts[i]) && SmallestFactor(rollouts[..i], d.multiplier)
    ensures d.skipReason.None? ==> if live then SmallestFactor(rollouts, d.multiplier) else d.multiplier == 1.0
    ensures 0.05 <= d.multiplier <= 1.0
  {
    d := Decision(None, 1.0);
    if !live {
      return;
    }
    for i := 0 to |rollouts|
      invariant d.skipReason.None? && !SomeReject(rollouts[..i])
      invariant SmallestFactor(rollouts[..i], d.multiplier) && 0.05 <= d.multiplier <= 1.0
    {
      var rollout := rollouts[i];
      assert rollouts[..i + 1] == rollouts[..i] + [rollout];
      if rollout.action.None? {
        ExtendFactor(rollouts[..i], rollout, d.multiplier);
        continue;
      }
      if CanReject(rollout.authority) && rollout.action.value == "skip" {
        d := d.(skipReason := Some(SkipText(rollout)));
        assert Rejects(rollouts[i]);
        return;
      }
      ExtendFactor(rollouts[..i], rollout, d.multiplier);
      if CanResize(rollout.authority)
         && (rollout.action.value == "downsize" || rollout.action.value == "deprioritize" || rollout.action.value == "skip")
      {
        var reduction := Clamp(if rollout.maxReduction.Some? then rollout.maxReduction.value else 0.2, 0.0, 0.95);
        var multiplier := 1.0 - reduction;
        if multiplier < d.multiplier {
          d := d.(multiplier := multiplier);
        }
      }
    }
    assert rollouts[..|rollouts|] == rollouts;
  }

  lemma ExtendFactor(seen: seq<Rollout>, r: Rollout, m: real)
    requires SmallestFactor(seen, m)
    ensures SmallestFactor(seen + [r], if Resizes(r) && Factor(r) < m then Factor(r) else m)
  {
    var all := seen + [r];
    assert all[|seen|] == r;
    forall i | 0 <= i < |all| && Resizes(all[i]) ensures i < |seen| ==> m <= Factor(all[i]) {
      if i < |seen| { assert all[i] == seen[i]; }
    }
    if m != 1.0 {
      var i :| 0 <= i < |seen| && Resizes(seen[i]) && m == Factor(seen[i]);
      assert all[i] == seen[i];
    }
  }

  /** The smallest factor is one number, in [0.05, 1], so the decision is determined by it. */
  lemma SmallestFactorIsUnique(rollouts: seq<Rollout>, m: real, m': real)
    requires SmallestFactor(rollouts, m) && SmallestFactor(rollouts, m') && m <= 1.0 && m' <= 1.0
    ensures m == m' && 0.05 <= m
  {
    if m != 1.0 {
      var i :| 0 <= i < |rollouts| && Resizes(rollouts[i]) && m == Factor(rollouts[i]);
      assert m' <= m;
    }
  }

  lemma SameMembers(a: seq<Rollout>, b: seq<Rollout>, i: int)
    requires multiset(a) == multiset(b) && 0 <= i < |a|
    ensures exists j :: 0 <= j < |b| && b[j] == a[i]
  {
    assert a[i] in multiset(b);
  }

  /** Whether a signal is skipped, and the multiplier when it is not, do not depend on the order of the rollouts. */
  lemma OrderDoesNotMatter(a: seq<Rollout>, b: seq<Rollout>, m: real)
    requires multiset(a) == multiset(b)
    ensures SomeReject(a) <==> SomeReject(b)
    ensures SmallestFactor(a, m) <==> SmallestFactor(b, m)
  {
    MembersDecide(a, b, m);
    MembersDecide(b, a, m);
  }

  lemma MembersDecide(a: seq<Rollout>, b: seq<Rollout>, m: real)
    requires multiset(a) == multiset(b)
    ensures SomeReject(a) ==> SomeReject(b)
    ensures SmallestFactor(a, m) ==> SmallestFactor(b, m)
  {
    if SomeReject(a) {
      var i :| 0 <= i < |a| && Rejects(a[i]);
      SameMembers(a, b, i);
    }
    if SmallestFactor(a, m) {
      forall j | 0 <= j < |b| && Resizes(b[j]) ensures m <= Factor(b[j]) {
        SameMembers(b, a, j);
      }
      if m != 1.0 {
        var i :| 0 <= i < |a| && Resizes(a[i]) && m == Factor(a[i]);
        SameMembers(a, b, i);
      }
    }
  }

  // ── Guardrails ────────────────────────────────────────────────────────

  /** One measured quantity with its configured limit, if either is known. */
  datatype Reading = Reading(name: string, limit: Option<real>, actual: Option<real>)

  /** The name and the two numbers that the message of a violation shows. */
  datatype Violation = Violation(name: string, actual: real, limit: real)

  datatype Verdict = Rollback(violations: seq<Violation>) | Warn | Fine

  predicate Over(r: Reading) { r.limit.Some? && r.actual.Some? && r.actual.value > r.limit.value }
  predicate NearOver(r: Reading) {
    r.limit.Some? && r.actual.Some? && r.limit.value * 0.8 < r.actual.value <= r.limit.value
  }
  predicate Under(r: Reading) { r.limit.Some? && r.actual.Some? && r.actual.value < r.limit.value }
  predicate NearUnder(r: Reading) {
    r.limit.Some? && r.actual.Some? && r.limit.value <= r.actual.value < r.limit.value * 1.2
  }

  /** Near a limit means within a fifth of it, on the allowed side; without a limit or a reading nothing is near or broken. */
  lemma NearMeansWithinAFifth(r: Reading)
    ensures r.limit.Some? && r.actual.Some? ==>
      && (NearOver(r) <==> r.limit.value - r.limit.value / 5.0 < r.actual.value && !Over(r))
      && (NearUnder(r) <==> r.actual.value < r.limit.value + r.limit.value / 5.0 && !Under(r))
      && (Over(r) <==> r.actual.value - r.limit.value > 0.0) && (Under(r) <==> r.limit.value - r.actual.value > 0.0)
    ensures r.limit.None? || r.actual.None? ==> !Over(r) && !Under(r) && !NearOver(r) && !NearUnder(r)
  {
  }

  function Noted(r: Reading): Violation
    requires r.limit.Some? && r.actual.Some?
  {
    Violation(r.name, r.actual.value, r.limit.value)
  }

  function Broken(r: Reading): seq<Violation> { if Over(r) then [Noted(r)] else [] }

  method CheckMaxGuardrail(r: Reading, warn: bool, violations: seq<Violation>)
      returns (warn': bool, violations': seq<Violation>)
    ensures violations' == violations + Broken(r)
    ensures violations' == [] <==> violations == [] && !Over(r)
    ensures warn' <==> warn || NearOver(r)
  {
    warn', violations' := warn, violations;
    if r.limit.Some? && r.actual.Some? {
      if r.actual.value > r.limit.value {
        violations' := violations + [Noted(r)];
      } else if r.actual.value > r.limit.value * 0.8 {
        warn' := true;
      }
    }
  }

  /** Rolls back exactly when a limit is broken, naming every broken one in order; warns only within 20% of one. */
  method EvaluateGuardrails(failure: Reading, oneLegged: Reading, drawdown: Reading, latency: Reading, edge: Reading)
      returns (v: Verdict)
    ensures v.Rollback? <==> Over(failure) || Over(oneLegged) || Over(drawdown) || Over(latency) || Under(edge)
    ensures v.Warn? ==> NearOver(failure) || NearOver(oneLegged) || NearOver(drawdown) || NearOver(latency) || NearUnder(edge)
    ensures v.Fine? ==> !(NearOver(failure) || NearOver(oneLegged) || NearOver(drawdown) || NearOver(latency) || NearUnder(edge))
    ensures v.Rollback? ==>
      v.violations == Broken(failure) + Broken(oneLegged) + Broken(drawdown) + Broken(latency) + if Under(edge) then [Noted(edge)] else []
  {
    var warn, violations := false, [];
    warn, violations := CheckMaxGuardrail(failure, warn, violations);
    warn, violations := CheckMaxGuardrail(oneLegged, warn, violations);
    warn, violations := CheckMaxGuardrail(drawdown, warn, violations);
    warn, violations := CheckMaxGuardrail(latency, warn, violations);
    if edge.limit.Some? && edge.actual.Some? {
      if edge.actual.value < edge.limit.value {
        violations := violations + [Noted(edge)];
      } else if edge.actual.value < edge.limit.value * 1.2 {
        warn := true;
      }
    }
    if violations != [] {
      return Rollback(violations);
    }
    return if warn then Warn else Fine;
  }
}
