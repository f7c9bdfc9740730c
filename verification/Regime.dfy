/**
 Regime hysteresis of the dynamic tuner: a counter that is reset in three different places, shown to
 compute "the latest run of N equal consecutive observations".
 */
module Regime {
  import opened Positions

  datatype MarketRegime = BullVolatile | BullCalm | BearVolatile | BearCalm | Ranging | Uncertain

  datatype Tracker = Tracker(stable: MarketRegime, candidate: Option<MarketRegime>, count: nat)

  function Observe(n: nat, t: Tracker, seen: MarketRegime): Tracker {
    if seen == t.stable then Tracker(t.stable, None, 0)
    else
      var count := if t.candidate == Some(seen) then t.count + 1 else 1;
      if count >= n then Tracker(seen, None, 0) else Tracker(t.stable, Some(seen), count)
  }

  function Track(n: nat, initial: MarketRegime, seen: seq<MarketRegime>): Tracker {
    if seen == [] then Tracker(initial, None, 0) else Observe(n, Track(n, initial, seen[..|seen| - 1]), seen[|seen| - 1])
  }

  /** resolve_regime: the three variables are updated one by one, with an early return. */
  method ResolveRegime(n: nat, seen: MarketRegime, t: Tracker) returns (t': Tracker, resolved: MarketRegime)
    ensures t' == Observe(n, t, seen) && resolved == t'.stable
  {
    var stable, candidate, count := t.stable, t.candidate, t.count;
    if seen == stable {
      candidate := None;
      count := 0;
      return Tracker(stable, candidate, count), stable;
    }
    if candidate == Some(seen) {
      count := count + 1;
    } else {
      candidate := Some(seen);
      count := 1;
    }
    if count >= n {
      stable := seen;
      candidate := None;
      count := 0;
    }
    return Tracker(stable, candidate, count), stable;
  }

  /** One resolution per cycle: the regime of the last cycle is the one the observations determine. */
  method RunCycles(n: nat, initial: MarketRegime, seen: seq<MarketRegime>) returns (stable: MarketRegime)
    ensures Determined(Intervals(n), initial, seen, stable)
  {
    var t := Tracker(initial, None, 0);
    stable := initial;
    for i := 0 to |seen|
      invariant t == Track(n, initial, seen[..i]) && stable == t.stable
    {
      assert seen[..i + 1][..i] == seen[..i];
      t, stable := ResolveRegime(n, seen[i], t);
    }
    assert seen[..|seen|] == seen;
    StableIsLatestRun(n, initial, seen);
  }

  // ── What the observations determine ───────────────────────────────────

  function Intervals(n: nat): nat { if n == 0 then 1 else n }

  /** The `n` observations before position `k` are all `r`. */
  ghost predicate RunEndsAt(n: nat, seen: seq<MarketRegime>, k: nat, r: MarketRegime) {
    n <= k <= |seen| && forall i :: k - n <= i < k ==> seen[i] == r
  }

  /** `r` is the value of the latest run of `n` equal observations, or the initial regime if there is none. */
  ghost predicate Determined(n: nat, initial: MarketRegime, seen: seq<MarketRegime>, r: MarketRegime) {
    || (r == initial && forall k: nat, q :: !RunEndsAt(n, seen, k, q))
    || exists k: nat :: RunEndsAt(n, seen, k, r) && forall k': nat, q :: RunEndsAt(n, seen, k', q) ==> k' <= k
  }

  /** At most one regime is determined, so `Determined` is a definition and not just a bound. */
  lemma DeterminedIsUnique(n: nat, initial: MarketRegime, seen: seq<MarketRegime>, r: MarketRegime, q: MarketRegime)
    requires n > 0 && Determined(n, initial, seen, r) && Determined(n, initial, seen, q)
    ensures r == q
  {
    if k: nat :| RunEndsAt(n, seen, k, r) && forall k': nat, p :: RunEndsAt(n, seen, k', p) ==> k' <= k {
      var j: nat :| RunEndsAt(n, seen, j, q) && forall k': nat, p :: RunEndsAt(n, seen, k', p) ==> k' <= j;
      assert j == k && seen[k - 1] == r && seen[k - 1] == q;
    }
  }

  /** How many equal observations the sequence ends with. */
  function Trailing(seen: seq<MarketRegime>): nat {
    if |seen| <= 1 then |seen|
    else if seen[|seen| - 1] == seen[|seen| - 2] then 1 + Trailing(seen[..|seen| - 1]) else 1
  }

  lemma {:induction false} TrailingIsRun(n: nat, seen: seq<MarketRegime>)
    requires n > 0 && seen != []
    ensures 1 <= Trailing(seen) <= |seen|
    ensures RunEndsAt(n, seen, |seen|, seen[|seen| - 1]) <==> n <= Trailing(seen)
  {
    var last := |seen| - 1;
    if last > 0 {
      var shorter := seen[..last];
      if seen[last] == seen[last - 1] {
        if n > 1 {
          TrailingIsRun(n - 1, shorter);
          if RunEndsAt(n - 1, shorter, last, shorter[last - 1]) {
            assert RunEndsAt(n, seen, |seen|, seen[last]);
          }
          if RunEndsAt(n, seen, |seen|, seen[last]) {
            assert forall i :: last - (n - 1) <= i < last ==> shorter[i] == seen[i];
          }
        } else {
          TrailingIsRun(1, shorter);
        }
      } else {
        assert n > 1 ==> |seen| - n <= last - 1;
      }
    }
  }

  /** Runs that end before the last observation are those of the shorter sequence. */
  lemma RunsOfPrefix(n: nat, seen: seq<MarketRegime>, k: nat, r: MarketRegime)
    requires seen != [] && k < |seen|
    ensures RunEndsAt(n, seen, k, r) <==> RunEndsAt(n, seen[..|seen| - 1], k, r)
  {
    var shorter := seen[..|seen| - 1];
    assert forall i :: 0 <= i < |shorter| ==> shorter[i] == seen[i];
  }

  lemma DeterminedStep(n: nat, initial: MarketRegime, seen: seq<MarketRegime>, r: MarketRegime)
    requires n > 0 && seen != [] && Determined(n, initial, seen[..|seen| - 1], r)
    ensures Determined(n, initial, seen, if Trailing(seen) >= n then seen[|seen| - 1] else r)
  {
    var last := seen[|seen| - 1];
    var shorter := seen[..|seen| - 1];
    TrailingIsRun(n, seen);
    if Trailing(seen) >= n {
      assert RunEndsAt(n, seen, |seen|, last);
    } else {
      forall k: nat, q | RunEndsAt(n, seen, k, q) ensures RunEndsAt(n, shorter, k, q) {
        assert k > 0 && seen[k - 1] == q;
        RunsOfPrefix(n, seen, k, q);
      }
      if k: nat :| RunEndsAt(n, shorter, k, r) && forall k': nat, q :: RunEndsAt(n, shorter, k', q) ==> k' <= k {
        RunsOfPrefix(n, seen, k, r);
        assert RunEndsAt(n, seen, k, r);
      }
    }
  }

  /** The counter is the length of the trailing run whenever that run is not (yet) the stable regime. */
  ghost predicate CounterOk(n: nat, seen: seq<MarketRegime>, t: Tracker) {
    if seen == [] || seen[|seen| - 1] == t.stable then t.candidate == None && t.count == 0
    else t.candidate == Some(seen[|seen| - 1]) && t.count == Trailing(seen) < Intervals(n)
  }

  /** For every observation sequence the counter computes the latest run of max(N, 1) equal observations. */
  lemma {:induction false} StableIsLatestRun(n: nat, initial: MarketRegime, seen: seq<MarketRegime>)
    ensures CounterOk(n, seen, Track(n, initial, seen))
    ensures Determined(Intervals(n), initial, seen, Track(n, initial, seen).stable)
    decreases |seen|
  {
    if seen == [] {
      assert forall k: nat, q :: !RunEndsAt(Intervals(n), seen, k, q);
    } else {
      var shorter := seen[..|seen| - 1];
      StableIsLatestRun(n, initial, shorter);
      DeterminedStep(Intervals(n), initial, seen, Track(n, initial, shorter).stable);
    }
  }
}
