/**
 When a restarted quant executor opens and closes its gates like the one it replaces.

 The query sorts by exit time.  Positions are numbered here in that order: every close has a larger id than
 all closes before it, and every answer is sorted by id.
 */
module RestartGates {
  import opened Positions
  import opened Breaker
  import opened OutcomeSync
  import O = OutcomeSync

  // ── The day's outcomes, replayed without any cooldown ─────────────────

  /** A breaker state without its dates; a halt is its reason. */
  datatype Core = Core(pnl: real, losses: nat, reason: Option<HaltReason>)

  const NOTHING := Core(0.0, 0, None)

  function Count(c: Core, pnl: real, limits: Limits): Core {
    var total, streak := c.pnl + pnl, if pnl > 0.0 then 0 else c.losses + 1;
    Core(total, streak,
      if total < -limits.dailyLoss then Some(DailyLoss)
      else if streak >= limits.losses then Some(ConsecutiveLosses)
      else c.reason)
  }

  predicate IsOutcomeOf(t: Trade, k: Kind) { t.pnl != 0.0 && ParseKind(t.kind) == Some(k) }

  /** The non-zero outcomes of one strategy among the positions below `n` of a set, counted in exit order. */
  function Replay(book: Book, ids: set<nat>, k: Kind, n: nat, limits: Limits): Core
    requires ids <= book.Keys
  {
    if n == 0 then NOTHING
    else
      var c := Replay(book, ids, k, n - 1, limits);
      if n - 1 in ids && IsOutcomeOf(book[n - 1], k) then Count(c, book[n - 1].pnl, limits) else c
  }

  ghost predicate Above(ids: set<nat>, n: nat) { forall id :: id in ids ==> id < n }

  lemma {:induction false} ReplayStops(book: Book, ids: set<nat>, k: Kind, m: nat, n: nat, limits: Limits)
    requires ids <= book.Keys && Above(ids, m) && m <= n
    ensures Replay(book, ids, k, n, limits) == Replay(book, ids, k, m, limits)
  {
    if m < n {
      ReplayStops(book, ids, k, m, n - 1, limits);
    }
  }

  lemma {:induction false} ReplayFrame(book: Book, ids: set<nat>, book': Book, ids': set<nat>, k: Kind, n: nat, limits: Limits)
    requires ids <= book.Keys && ids' <= book'.Keys
    requires forall id :: id < n ==> (id in ids <==> id in ids') && (id in ids ==> book[id] == book'[id])
    ensures Replay(book, ids, k, n, limits) == Replay(book', ids', k, n, limits)
  {
    if n > 0 {
      ReplayFrame(book, ids, book', ids', k, n - 1, limits);
    }
  }

  /** A position after all others is counted last. */
  lemma ReplayLast(book: Book, ids: set<nat>, id: nat, k: Kind, n: nat, limits: Limits)
    requires ids <= book.Keys && id in book && Above(ids, id) && Above(ids + {id}, n)
    ensures var c := Replay(book, ids, k, id, limits);
      Replay(book, ids + {id}, k, n, limits) == if IsOutcomeOf(book[id], k) then Count(c, book[id].pnl, limits) else c
  {
    assert id in ids + {id};
    ReplayStops(book, ids + {id}, k, id + 1, n, limits);
    ReplayFrame(book, ids, book, ids + {id}, k, id, limits);
  }

  lemma {:induction false} ReplayOfNothing(book: Book, ids: set<nat>, k: Kind, n: nat, limits: Limits)
    requires ids <= book.Keys && !Counts(book, ids, k)
    ensures Replay(book, ids, k, n, limits) == NOTHING
  {
    if n > 0 {
      ReplayOfNothing(book, ids, k, n - 1, limits);
      assert n - 1 in OfKind(book, ids, k) ==> book[n - 1].pnl == 0.0;
    }
  }

  // ── A running state against the replay ────────────────────────────────

  /** The state as a refresh on that day would leave it, cooldowns aside. */
  function Rolled(s: Strategy, day: int): Strategy {
    if s.date == day then s else Strategy(0.0, day, 0, false, None, None)
  }

  /** The running state is at most as strict as the replay, and never less strict about the daily loss. */
  predicate Follows(s: Strategy, c: Core, limits: Limits) {
    && s.pnl == c.pnl && s.losses <= c.losses && s.halted == s.reason.Some?
    && (s.halted ==> c.reason.Some?)
    && (s.reason == Some(DailyLoss) <==> c.reason == Some(DailyLoss))
    && (c.reason == Some(DailyLoss) && c.pnl >= -limits.dailyLoss ==> s.losses == c.losses)
  }

  predicate Equals(s: Strategy, c: Core) { s.losses == c.losses && s.reason == c.reason }

  predicate HaltedIn(s: Strategy, from: int, to: int) {
    s.halted ==> s.haltedAt.Some? && from <= s.haltedAt.value <= to
  }

  /** The window of times at which the state may have been halted, and whether it equals the replay. */
  datatype Mode = Mode(exact: bool, from: int, to: int)

  predicate Tracks(s: Strategy, c: Core, limits: Limits, mode: Mode) {
    Follows(s, c, limits) && HaltedIn(s, mode.from, mode.to) && (mode.exact ==> Equals(s, c))
  }

  lemma OutcomeKeepsTracks(s: Strategy, c: Core, at: int, pnl: real, limits: Limits, mode: Mode)
    requires Sane(limits) && Tracks(s, c, limits, mode) && s.date == Day(at) && mode.from <= at <= mode.to
    ensures Tracks(RecordOutcome(s, at, pnl, limits), Count(c, pnl, limits), limits, mode)
  {
  }

  predicate Lifted(s: Strategy, at: int, cooldown: nat) {
    s.date == Day(at) && s.halted && !Refresh(s, at, cooldown).halted
  }

  lemma RefreshKeepsTracks(s: Strategy, c: Core, at: int, cooldown: nat, limits: Limits, mode: Mode)
    requires Tracks(s, c, limits, mode) && s.date == Day(at)
    requires mode.exact ==> !Lifted(s, at, cooldown)
    ensures Tracks(Refresh(s, at, cooldown), c, limits, mode)
  {
  }

  // ── One fold ──────────────────────────────────────────────────────────

  ghost predicate Sorted(rows: seq<OutcomeRow>) { forall i, j :: 0 <= i < j < |rows| ==> rows[i].id <= rows[j].id }

  /** What has been processed comes before every row that has not. */
  ghost predicate Ahead(processed: set<nat>, rows: seq<OutcomeRow>) {
    forall a, i :: a in processed && 0 <= i < |rows| && rows[i].id !in processed ==> a < rows[i].id
  }

  ghost predicate KindTracks(e: Exec, book: Book, day: int, limits: Limits, mode: Mode, k: Kind)
    requires e.processed <= book.Keys && k in e.states
  {
    forall n: nat :: Above(e.processed, n) ==>
      Tracks(Rolled(e.states[k], day), Replay(book, e.processed, k, n, limits), limits, mode)
  }

  ghost predicate ExecTracks(e: Exec, book: Book, day: int, limits: Limits, mode: Mode, k: Kind) {
    AllKinds(e.states) && e.processed <= book.Keys && KindTracks(e, book, day, limits, mode, k)
  }

  /** What one new row does to one strategy. */
  lemma RowEffect(e: Exec, row: OutcomeRow, limits: Limits, k: Kind)
    requires row.id !in e.processed && k in e.states
    ensures var e' := FoldRow(e, row, limits);
      && e'.processed == e.processed + {row.id} && k in e'.states
      && e'.states[k] ==
         if row.pnl != 0.0 && ParseKind(row.kind) == Some(k) then RecordOutcome(e.states[k], row.readAt, row.pnl, limits)
         else e.states[k]
  {
  }

  lemma StateKeepsTracks(
      s: Strategy, s': Strategy, book: Book, ids: set<nat>, id: nat, at: int, limits: Limits, mode: Mode, k: Kind, n: nat)
    requires Sane(limits) && ids <= book.Keys && id in book && Above(ids, id) && Above(ids + {id}, n)
    requires Tracks(Rolled(s, Day(at)), Replay(book, ids, k, id, limits), limits, mode) && mode.from <= at <= mode.to
    requires s' == if IsOutcomeOf(book[id], k) then RecordOutcome(s, at, book[id].pnl, limits) else s
    ensures Tracks(Rolled(s', Day(at)), Replay(book, ids + {id}, k, n, limits), limits, mode)
  {
    ReplayLast(book, ids, id, k, n, limits);
    OutcomeKeepsTracks(Rolled(s, Day(at)), Replay(book, ids, k, id, limits), at, book[id].pnl, limits, mode);
    assert RecordOutcome(s, at, book[id].pnl, limits) == RecordOutcome(Rolled(s, Day(at)), at, book[id].pnl, limits);
  }

  lemma RowKeepsTracks(e: Exec, e': Exec, row: OutcomeRow, book: Book, limits: Limits, mode: Mode, k: Kind)
    requires Sane(limits) && ExecTracks(e, book, Day(row.readAt), limits, mode, k)
    requires row.id in book && row.kind == book[row.id].kind && row.pnl == book[row.id].pnl
    requires Above(e.processed, row.id) && mode.from <= row.readAt <= mode.to
    requires e'.processed == e.processed + {row.id} && k in e'.states
    requires e'.states[k] ==
      if IsOutcomeOf(book[row.id], k) then RecordOutcome(e.states[k], row.readAt, row.pnl, limits) else e.states[k]
    ensures KindTracks(e', book, Day(row.readAt), limits, mode, k)
  {
    forall n: nat | Above(e'.processed, n)
      ensures Tracks(Rolled(e'.states[k], Day(row.readAt)), Replay(book, e'.processed, k, n, limits), limits, mode)
    {
      StateKeepsTracks(e.states[k], e'.states[k], book, e.processed, row.id, row.readAt, limits, mode, k, n);
    }
  }

  lemma {:induction false} FoldKeepsTracks(
      e: Exec, rows: seq<OutcomeRow>, n: nat, book: Book, day: int, limits: Limits, mode: Mode, k: Kind)
    requires Sane(limits) && ExecTracks(e, book, day, limits, mode, k) && n <= |rows|
    requires FromBook(rows, book) && ReadOn(rows, day) && Sorted(rows) && Ahead(e.processed, rows)
    requires Timely(rows, mode.from, mode.to)
    ensures var e' := Fold(e, rows[..n], limits);
      && ExecTracks(e', book, day, limits, mode, k) && Ahead(e'.processed, rows)
      && (forall i :: 0 <= i < n ==> rows[i].id in e'.processed)
  {
    if n == 0 {
      assert rows[..0] == [];
    } else {
      FoldKeepsTracks(e, rows, n - 1, book, day, limits, mode, k);
      assert rows[..n][..n - 1] == rows[..n - 1];
      var e1, row := Fold(e, rows[..n - 1], limits), rows[n - 1];
      var e2 := FoldRow(e1, row, limits);
      assert Fold(e, rows[..n], limits) == e2;
      if row.id !in e1.processed {
        assert Above(e1.processed, row.id);
        RowEffect(e1, row, limits, k);
        RowKeepsTracks(e1, e2, row, book, limits, mode, k);
      }
    }
  }

  // ── Whole runs ────────────────────────────────────────────────────────

  /**
   One step as the comparison of one strategy on one day needs it: positions numbered in exit order and answers
   sorted by it, and every start-up of that day answered.
   */
  ghost predicate Orderly(s: Sys, step: Step, at: int, day: int, k: Kind) {
    match step
    case Close(id, _, _) => Above(s.book.Keys, id)
    case SyncNow(answer) => answer.Some? && Day(at) == day ==> Sorted(answer.value)
    case RestartNow(answer, loaded) => Day(at) == day ==> answer.Some? && Sorted(answer.value) && k in loaded
    case Ask(_, _) => true
  }

  ghost predicate RunOrderly(s: Sys, steps: seq<(Step, int)>, limits: Limits, day: int, k: Kind)
    decreases |steps|
  {
    steps == [] ||
    (&& Orderly(s, steps[0].0, steps[0].1, day, k)
     && RunOrderly(O.Next(s, steps[0].0, steps[0].1, limits), steps[1..], limits, day, k))
  }

  /** No signal of that day finds the cooldown of a halt elapsed. */
  ghost predicate NothingLiftedOn(day: int, s: Sys, steps: seq<(Step, int)>, limits: Limits)
    decreases |steps|
  {
    steps == [] ||
    (&& (steps[0].0.Ask? && Day(steps[0].1) == day && steps[0].0.strategy in s.exec.states ==>
           !Lifted(s.exec.states[steps[0].0.strategy], steps[0].1, steps[0].0.cooldown))
     && NothingLiftedOn(day, O.Next(s, steps[0].0, steps[0].1, limits), steps[1..], limits))
  }

  /** Unprocessed positions of the processed day come after the processed ones. */
  ghost predicate Numbered(e: Exec, book: Book) {
    forall a, b :: a in e.processed && b in book && b !in e.processed && book[b].day == e.processedDate ==> a < b
  }

  predicate Idle(s: Strategy) { s.pnl == 0.0 && s.losses == 0 && !s.halted && s.reason.None? }

  ghost predicate KindOk(s: Sys, limits: Limits, mode: Mode, day: int, k: Kind)
    requires s.exec.processed <= s.book.Keys && k in s.exec.states
  {
    if s.exec.states[k].date > s.exec.processedDate then Idle(s.exec.states[k])
    else s.exec.processedDate == day ==> KindTracks(s.exec, s.book, day, limits, mode, k)
  }

  /** `born` is when the first process started; `exact` whether the state equals the replay. */
  ghost predicate OrderInv(s: Sys, limits: Limits, exact: bool, day: int, born: int, k: Kind) {
    && Inv(s, limits) && born <= s.now && Numbered(s.exec, s.book)
    && KindOk(s, limits, Mode(exact, born, s.now), day, k)
  }

  lemma LaterTracks(s: Strategy, c: Core, limits: Limits, mode: Mode, mode': Mode)
    requires Tracks(s, c, limits, mode) && mode'.from <= mode.from && mode.to <= mode'.to && (mode'.exact ==> mode.exact)
    ensures Tracks(s, c, limits, mode')
  {
  }

  lemma LaterKindTracks(e: Exec, book: Book, day: int, limits: Limits, mode: Mode, mode': Mode, k: Kind)
    requires ExecTracks(e, book, day, limits, mode, k)
    requires mode'.from <= mode.from && mode.to <= mode'.to && (mode'.exact ==> mode.exact)
    ensures ExecTracks(e, book, day, limits, mode', k)
  {
  }

  lemma CloseKeepsOrder(s: Sys, step: Step, at: int, limits: Limits, exact: bool, day: int, born: int, k: Kind)
    requires OrderInv(s, limits, exact, day, born, k) && step.Close? && Orderly(s, step, at, day, k) && Enabled(s, step, at)
    ensures OrderInv(O.Next(s, step, at, limits), limits, exact, day, born, k)
  {
    var s' := O.Next(s, step, at, limits);
    CloseKeepsInv(s, step.id, step.kind, step.pnl, at, limits);
    var mode, mode' := Mode(exact, born, s.now), Mode(exact, born, at);
    if s.exec.states[k].date <= s.exec.processedDate == day {
      forall n: nat | Above(s.exec.processed, n)
        ensures Tracks(Rolled(s.exec.states[k], day), Replay(s'.book, s.exec.processed, k, n, limits), limits, mode')
      {
        ReplayFrame(s.book, s.exec.processed, s'.book, s.exec.processed, k, n, limits);
        LaterTracks(Rolled(s.exec.states[k], day), Replay(s.book, s.exec.processed, k, n, limits), limits, mode, mode');
      }
    }
  }

  /** A refresh within the day keeps following; one that starts the day leaves nothing, as the replay has it. */
  lemma AskKeepsTracks(s: Strategy, c: Core, at: int, cooldown: nat, limits: Limits, mode: Mode, day: int)
    requires Tracks(Rolled(s, day), c, limits, mode) && Refresh(s, at, cooldown).date <= day && s.date <= Day(at)
    requires mode.exact && Day(at) == day ==> !Lifted(s, at, cooldown)
    ensures Tracks(Rolled(Refresh(s, at, cooldown), day), c, limits, mode)
  {
    if s.date == Day(at) == day {
      RefreshKeepsTracks(s, c, at, cooldown, limits, mode);
    }
  }

  lemma AskKeepsOrder(s: Sys, kind: Kind, cooldown: nat, at: int, limits: Limits, exact: bool, day: int, born: int, k: Kind)
    requires Sane(limits) && OrderInv(s, limits, exact, day, born, k) && s.now <= at
    requires exact && Day(at) == day && kind in s.exec.states ==> !Lifted(s.exec.states[kind], at, cooldown)
    ensures OrderInv(O.Next(s, Ask(kind, cooldown), at, limits), limits, exact, day, born, k)
  {
    var s' := O.Next(s, Ask(kind, cooldown), at, limits);
    AskKeepsInv(s, kind, cooldown, at, limits);
    assert StateOk(s.exec, s.book, s.now, s.gap, k);
    var before, after := s.exec.states[k], s'.exec.states[k];
    assert after == if k == kind then Refresh(before, at, cooldown) else before;
    if after.date <= s.exec.processedDate == day {
      LaterKindTracks(s.exec, s.book, day, limits, Mode(exact, born, s.now), Mode(exact, born, at), k);
      forall n: nat | Above(s.exec.processed, n)
        ensures Tracks(Rolled(after, day), Replay(s.book, s.exec.processed, k, n, limits), limits, Mode(exact, born, at))
      {
        if k == kind {
          AskKeepsTracks(before, Replay(s.book, s.exec.processed, k, n, limits), at, cooldown, limits, Mode(exact, born, at), day);
        }
      }
    }
  }

  /** Midnight: nothing is processed, and the state is or will be refreshed to nothing. */
  lemma ClearTracks(s: Sys, at: int, limits: Limits, exact: bool, born: int, k: Kind)
    requires OrderInv(s, limits, exact, Day(at), born, k) && s.now <= at
    ensures var e := ClearAtMidnight(s.exec, at);
      ExecTracks(e, s.book, Day(at), limits, Mode(exact, born, at), k) && Numbered(e, s.book)
  {
    var e, mode, mode' := ClearAtMidnight(s.exec, at), Mode(exact, born, s.now), Mode(exact, born, at);
    assert StateOk(s.exec, s.book, s.now, s.gap, k);
    forall n: nat | Above(e.processed, n)
      ensures Tracks(Rolled(e.states[k], Day(at)), Replay(s.book, e.processed, k, n, limits), limits, mode')
    {
      if e.processed == {} {
        ReplayOfNothing(s.book, {}, k, n, limits);
      }
      if s.exec.processedDate == Day(at) {
        LaterTracks(Rolled(e.states[k], Day(at)), Replay(s.book, e.processed, k, n, limits), limits, mode, mode');
      }
    }
  }

  lemma AheadOfAnswer(e: Exec, rows: seq<OutcomeRow>, book: Book, day: int)
    requires Numbered(e, book) && e.processedDate == day && Answers(rows, book, day)
    requires forall id :: id in book ==> book[id].day <= day
    ensures Ahead(e.processed, rows)
  {
    forall a, i | a in e.processed && 0 <= i < |rows| && rows[i].id !in e.processed ensures a < rows[i].id {
      assert rows[i].id in Ids(rows);
    }
  }

  lemma SyncKeepsOrder(s: Sys, answer: Option<seq<OutcomeRow>>, at: int, limits: Limits, exact: bool, day: int, born: int, k: Kind)
    requires Sane(limits) && OrderInv(s, limits, exact, day, born, k)
    requires Enabled(s, SyncNow(answer), at) && Orderly(s, SyncNow(answer), at, day, k)
    ensures OrderInv(O.Next(s, SyncNow(answer), at, limits), limits, exact, day, born, k)
  {
    var s' := O.Next(s, SyncNow(answer), at, limits);
    StepKeepsInv(s, SyncNow(answer), at, limits);
    if answer.Some? {
      SyncProcessesToday(s, answer.value, at, limits);
    }
    if Day(at) == day {
      ClearTracks(s, at, limits, exact, born, k);
      if answer.Some? {
        var rows, e := answer.value, ClearAtMidnight(s.exec, at);
        AheadOfAnswer(e, rows, s.book, day);
        FoldKeepsTracks(e, rows, |rows|, s.book, day, limits, Mode(exact, born, at), k);
        assert rows[..|rows|] == rows;
      }
    }
    assert StateOk(s'.exec, s'.book, s'.now, s'.gap, k);
  }

  /** A restarted process that was answered equals the replay of the day, and its halts date from the restart. */
  lemma RestartTracks(s: Sys, rows: seq<OutcomeRow>, loaded: set<Kind>, at: int, limits: Limits, k: Kind)
    requires Sane(limits) && Inv(s, limits) && Enabled(s, RestartNow(Some(rows), loaded), at) && Sorted(rows) && k in loaded
    ensures var e := Restart(s.exec, Some(rows), loaded, at, limits);
      ExecTracks(e, s.book, Day(at), limits, Mode(true, s.now, at), k) && e.processed == Ids(rows)
  {
    var mode := Mode(true, s.now, at);
    var e0 := Exec(FreshStates(at), {}, Day(at), s.exec.disk);
    forall k: Kind ensures k in e0.states && e0.states[k] == Fresh(at) {
      EveryKindIsFresh(at, k);
    }
    forall n: nat ensures Replay(s.book, {}, k, n, limits) == NOTHING {
      ReplayOfNothing(s.book, {}, k, n, limits);
    }
    FoldKeepsTracks(e0, rows, |rows|, s.book, Day(at), limits, mode, k);
    assert rows[..|rows|] == rows;
    StartSyncKeepsInv(s, Some(rows), at, limits);
    LoadTracks(s, rows, loaded, at, limits, mode, k);
  }

  lemma LoadTracks(s: Sys, rows: seq<OutcomeRow>, loaded: set<Kind>, at: int, limits: Limits, mode: Mode, k: Kind)
    requires Answers(rows, s.book, Day(at)) && k in loaded
    requires var e1 := StartSync(s, Some(rows), at, limits);
      && ExecTracks(e1, s.book, Day(at), limits, mode, k) && e1.processed == Ids(rows)
      && DiskOk(e1, s.book, k) && SyncedDisk(e1, s.exec.disk, s.book, Ids(rows))
    ensures ExecTracks(Restart(s.exec, Some(rows), loaded, at, limits), s.book, Day(at), limits, mode, k)
  {
    var e1 := StartSync(s, Some(rows), at, limits);
    var e := Loaded(e1, loaded, at);
    forall k': Kind ensures k' in e.states { assert k' in e1.states; }
    assert StoredIfCounted(e1, s.exec.disk, s.book, Ids(rows), k);
    if !Counts(s.book, Ids(rows), k) {
      if k in e1.disk { UncountedRowIsOld(s, e1, rows, at, k); }
      forall n: nat ensures Replay(s.book, Ids(rows), k, n, limits) == NOTHING {
        ReplayOfNothing(s.book, Ids(rows), k, n, limits);
      }
    }
  }

  lemma RestartKeepsOrder(
      s: Sys, answer: Option<seq<OutcomeRow>>, loaded: set<Kind>, at: int, limits: Limits, exact: bool, day: int, born: int, k: Kind)
    requires Sane(limits) && OrderInv(s, limits, exact, day, born, k)
    requires Enabled(s, RestartNow(answer, loaded), at) && Orderly(s, RestartNow(answer, loaded), at, day, k)
    ensures OrderInv(O.Next(s, RestartNow(answer, loaded), at, limits), limits, exact, day, born, k)
  {
    var s' := O.Next(s, RestartNow(answer, loaded), at, limits);
    StepKeepsInv(s, RestartNow(answer, loaded), at, limits);
    StartSyncKeepsInv(s, answer, at, limits);
    if answer.Some? {
      SyncProcessesToday(s, answer.value, at, limits);
    }
    assert Numbered(s'.exec, s'.book);
    assert StateOk(s'.exec, s'.book, s'.now, s'.gap, k);
    if Day(at) == day {
      RestartTracks(s, answer.value, loaded, at, limits, k);
      LaterKindTracks(s'.exec, s.book, day, limits, Mode(true, s.now, at), Mode(exact, born, at), k);
    }
  }

  lemma BootTracks(now: int, limits: Limits, exact: bool, day: int, k: Kind)
    requires Sane(limits)
    ensures OrderInv(Boot(now), limits, exact, day, now, k)
  {
    var s := Boot(now);
    BootOk(now, limits);
    EveryKindIsFresh(now, k);
    forall n: nat ensures Replay(s.book, {}, k, n, limits) == NOTHING {
      ReplayOfNothing(s.book, {}, k, n, limits);
    }
  }

  lemma {:induction false} RunKeepsOrder(
      s: Sys, steps: seq<(Step, int)>, limits: Limits, exact: bool, day: int, born: int, k: Kind)
    requires Sane(limits) && OrderInv(s, limits, exact, day, born, k) && RunOrderly(s, steps, limits, day, k)
    requires exact ==> NothingLiftedOn(day, s, steps, limits)
    ensures OrderInv(O.Run(s, steps, limits), limits, exact, day, born, k)
    decreases |steps|
  {
    if steps != [] {
      var (step, at) := steps[0];
      if Enabled(s, step, at) {
        match step
        case Close(_, _, _) => CloseKeepsOrder(s, step, at, limits, exact, day, born, k);
        case Ask(kind, cooldown) => AskKeepsOrder(s, kind, cooldown, at, limits, exact, day, born, k);
        case SyncNow(answer) => SyncKeepsOrder(s, answer, at, limits, exact, day, born, k);
        case RestartNow(answer, loaded) => RestartKeepsOrder(s, answer, loaded, at, limits, exact, day, born, k);
      }
      RunKeepsOrder(O.Next(s, step, at, limits), steps[1..], limits, exact, day, born, k);
    }
  }

  // ── Main results ──────────────────────────────────────────────────────

  lemma {:induction false} SomethingIsAbove(ids: set<nat>) returns (n: nat)
    ensures Above(ids, n)
    decreases ids
  {
    n := 0;
    if ids != {} {
      var id :| id in ids;
      var m := SomethingIsAbove(ids - {id});
      n := if m > id then m else id + 1;
      forall a | a in ids ensures a < n {
        assert a == id || a in ids - {id};
      }
    }
  }

  /** Everything closed today has been folded. */
  ghost predicate CaughtUp(s: Sys, at: int) {
    s.exec.processedDate == Day(at) && forall id :: id in s.book && s.book[id].day >= Day(at) ==> id in s.exec.processed
  }

  /** The halt has not served this cooldown; 0 means that it lasts the day. */
  predicate Cooling(s: Strategy, later: int, cooldown: nat) {
    s.halted && s.haltedAt.Some? && (cooldown == 0 || later - s.haltedAt.value < cooldown)
  }

  /** A start-up whose query answers in order, and the running and restarted states of one strategy as of that day. */
  ghost predicate Twins(
      s: Sys, rows: seq<OutcomeRow>, loaded: set<Kind>, at: int, limits: Limits, k: Kind, running: Strategy, restarted: Strategy)
  {
    var e := Restart(s.exec, Some(rows), loaded, at, limits);
    && CaughtUp(s, at) && Enabled(s, RestartNow(Some(rows), loaded), at) && Sorted(rows)
    && k in s.exec.states && k in e.states
    && running == Rolled(s.exec.states[k], Day(at)) && restarted == Rolled(e.states[k], Day(at))
  }

  /** Both states against the same replay. */
  lemma TwinsTrack(
      s: Sys, rows: seq<OutcomeRow>, loaded: set<Kind>, at: int, limits: Limits, exact: bool, born: int, k: Kind,
      running: Strategy, restarted: Strategy) returns (c: Core)
    requires Sane(limits) && OrderInv(s, limits, exact, Day(at), born, k) && k in loaded
    requires Twins(s, rows, loaded, at, limits, k, running, restarted)
    ensures Tracks(running, c, limits, Mode(exact, born, s.now)) && Tracks(restarted, c, limits, Mode(true, s.now, at))
  {
    RestartTracks(s, rows, loaded, at, limits, k);
    assert s.exec.processed == Ids(rows);
    var n := SomethingIsAbove(Ids(rows));
    assert StateOk(s.exec, s.book, s.now, s.gap, k);
    c := Replay(s.book, Ids(rows), k, n, limits);
  }

  lemma GateAfterRoll(s: Strategy, day: int, later: int, cooldown: nat)
    requires Day(later) == day
    ensures Passes(s, later, cooldown) == Passes(Rolled(s, day), later, cooldown)
  {
  }

  lemma ReasonCases(r: Option<HaltReason>)
    ensures r == None || r == Some(DailyLoss) || r == Some(ConsecutiveLosses)
  {
    if r.Some? {
      match r.value
      case DailyLoss =>
      case ConsecutiveLosses =>
    }
  }

  /** What two states that follow the same replay have in common, and exactly when their gates differ. */
  lemma GatesOfTwins(running: Strategy, restarted: Strategy, c: Core, limits: Limits, mode: Mode, at: int, later: int, cooldown: nat)
    requires Tracks(running, c, limits, mode) && Tracks(restarted, c, limits, Mode(true, mode.to, at))
    requires running.date == Day(later) && restarted.date == Day(later) && mode.to <= at <= later
    ensures Passes(restarted, later, cooldown) ==> Passes(running, later, cooldown)
    ensures Passes(restarted, later, cooldown) != Passes(running, later, cooldown) <==>
      && restarted.reason == Some(ConsecutiveLosses) && Cooling(restarted, later, cooldown)
      && !Cooling(running, later, cooldown)
  {
    ReasonCases(running.reason);
    ReasonCases(restarted.reason);
  }

  /**
   Over every run, with cooldowns and earlier restarts, for a strategy that is read at the restart: the restarted
   gate never passes a signal that the running one blocks; day P&L and daily-loss halts are the same; and the gates
   differ exactly while the restarted strategy serves, from the restart, a consecutive-loss halt that the running
   one has been relieved of.
   */
  lemma GatesAgreeExact(
      now: int, steps: seq<(Step, int)>, rows: seq<OutcomeRow>, loaded: set<Kind>, at: int, limits: Limits, k: Kind,
      running: Strategy, restarted: Strategy, later: int, cooldown: nat)
    requires Sane(limits) && RunOrderly(Boot(now), steps, limits, Day(at), k) && k in loaded
    requires Twins(O.Run(Boot(now), steps, limits), rows, loaded, at, limits, k, running, restarted)
    requires at <= later && Day(later) == Day(at)
    ensures running.pnl == restarted.pnl && running.losses <= restarted.losses
    ensures running.reason == Some(DailyLoss) <==> restarted.reason == Some(DailyLoss)
    ensures Passes(restarted, later, cooldown) ==> Passes(running, later, cooldown)
    ensures Passes(restarted, later, cooldown) != Passes(running, later, cooldown) <==>
      && restarted.reason == Some(ConsecutiveLosses) && Cooling(restarted, later, cooldown)
      && !Cooling(running, later, cooldown)
  {
    var s := O.Run(Boot(now), steps, limits);
    BootTracks(now, limits, false, Day(at), k);
    RunKeepsOrder(Boot(now), steps, limits, false, Day(at), now, k);
    var c := TwinsTrack(s, rows, loaded, at, limits, false, now, k, running, restarted);
    GatesOfTwins(running, restarted, c, limits, Mode(false, now, s.now), at, later, cooldown);
  }

  /**
   Exactly when a restart opens a gate: a signal that the running executor blocks passes the restarted one if and
   only if the strategy's stored row was not read.
   */
  lemma LessStrictExact(
      now: int, steps: seq<(Step, int)>, rows: seq<OutcomeRow>, loaded: set<Kind>, at: int, limits: Limits, k: Kind,
      running: Strategy, restarted: Strategy, later: int, cooldown: nat)
    requires Sane(limits) && RunOrderly(Boot(now), steps, limits, Day(at), k)
    requires Twins(O.Run(Boot(now), steps, limits), rows, loaded, at, limits, k, running, restarted)
    requires at <= later && Day(later) == Day(at) && !Passes(running, later, cooldown)
    ensures Passes(restarted, later, cooldown) <==> k !in loaded
  {
    if k in loaded {
      GatesAgreeExact(now, steps, rows, loaded, at, limits, k, running, restarted, later, cooldown);
    }
  }

  /** The states above are what the gates see. */
  lemma TwinsAreTheGates(
      s: Sys, rows: seq<OutcomeRow>, loaded: set<Kind>, at: int, limits: Limits, k: Kind, running: Strategy, restarted: Strategy,
      later: int, cooldown: nat)
    requires Twins(s, rows, loaded, at, limits, k, running, restarted) && Day(later) == Day(at)
    ensures Passes(running, later, cooldown) == Passes(s.exec.states[k], later, cooldown)
    ensures Passes(restarted, later, cooldown)
      == Passes(Restart(s.exec, Some(rows), loaded, at, limits).states[k], later, cooldown)
  {
    GateAfterRoll(s.exec.states[k], Day(at), later, cooldown);
    GateAfterRoll(Restart(s.exec, Some(rows), loaded, at, limits).states[k], Day(at), later, cooldown);
  }

  /**
   After every run in which no cooldown lifted a halt that day, halt, reason and loss counter are the same; the
   gates then differ only in when the cooldown started, and not at all without one.
   */
  lemma GatesAgreeWithoutLifts(
      now: int, steps: seq<(Step, int)>, rows: seq<OutcomeRow>, loaded: set<Kind>, at: int, limits: Limits, k: Kind,
      running: Strategy, restarted: Strategy, later: int, cooldown: nat)
    requires Sane(limits) && RunOrderly(Boot(now), steps, limits, Day(at), k) && k in loaded
    requires NothingLiftedOn(Day(at), Boot(now), steps, limits)
    requires Twins(O.Run(Boot(now), steps, limits), rows, loaded, at, limits, k, running, restarted)
    requires at <= later && Day(later) == Day(at)
    ensures running.(haltedAt := None) == restarted.(haltedAt := None)
    ensures running.halted ==> running.haltedAt.Some? && restarted.haltedAt.Some? && running.haltedAt.value <= restarted.haltedAt.value
    ensures cooldown == 0 ==> Passes(restarted, later, cooldown) == Passes(running, later, cooldown)
  {
    var s := O.Run(Boot(now), steps, limits);
    BootTracks(now, limits, true, Day(at), k);
    RunKeepsOrder(Boot(now), steps, limits, true, Day(at), now, k);
    var c := TwinsTrack(s, rows, loaded, at, limits, true, now, k, running, restarted);
    GatesOfTwins(running, restarted, c, limits, Mode(true, now, s.now), at, later, cooldown);
  }

  /** If no signal uses a cooldown, nothing is ever lifted. */
  lemma {:induction false} NoCooldownNoLift(day: int, s: Sys, steps: seq<(Step, int)>, limits: Limits)
    requires forall i :: 0 <= i < |steps| && steps[i].0.Ask? ==> steps[i].0.cooldown == 0
    ensures NothingLiftedOn(day, s, steps, limits)
    decreases |steps|
  {
    if steps != [] {
      NoCooldownNoLift(day, O.Next(s, steps[0].0, steps[0].1, limits), steps[1..], limits);
    }
  }

  // ── The difference, for all limits ────────────────────────────────────

  /** A win and then as many losses of one as the limit allows: the day's P&L ends at zero. */
  function StreakRow(limits: Limits, i: nat, at: int): OutcomeRow {
    OutcomeRow(i, "flow", if i == 0 then limits.losses as real else -1.0, at)
  }

  function Streak(limits: Limits, n: nat, at: int): seq<OutcomeRow> {
    if n == 0 then [] else Streak(limits, n - 1, at) + [StreakRow(limits, n - 1, at)]
  }

  lemma FlowRow(e: Exec, id: nat, pnl: real, at: int, limits: Limits)
    requires id !in e.processed && pnl != 0.0 && Flow in e.states
    ensures var s := RecordOutcome(e.states[Flow], at, pnl, limits);
      FoldRow(e, OutcomeRow(id, "flow", pnl, at), limits)
      == e.(processed := e.processed + {id}, states := e.states[Flow := s], disk := e.disk[Flow := s])
  {
  }

  function StreakState(limits: Limits, n: nat, at: int): Strategy {
    if n < limits.losses then Strategy((limits.losses - n) as real, Day(at), n, false, None, None)
    else Strategy((limits.losses - n) as real, Day(at), n, true, Some(ConsecutiveLosses), Some(at))
  }

  lemma StreakStateStep(limits: Limits, n: nat, at: int)
    requires Sane(limits) && 0 < n <= limits.losses
    ensures RecordOutcome(StreakState(limits, n - 1, at), at, -1.0, limits) == StreakState(limits, n, at)
  {
  }

  /** After the first `n + 1` rows of the streak. */
  ghost predicate StreakDone(e: Exec, limits: Limits, n: nat, at: int) {
    && Flow in e.states && Flow in e.disk && e.disk[Flow] == e.states[Flow]
    && Above(e.processed, n + 1) && e.states[Flow] == StreakState(limits, n, at)
  }

  lemma StreakStarts(e: Exec, limits: Limits, at: int)
    requires Sane(limits) && e.processed == {} && Flow in e.states && e.states[Flow] == Fresh(at)
    ensures StreakDone(FoldRow(e, StreakRow(limits, 0, at), limits), limits, 0, at)
  {
    FlowRow(e, 0, limits.losses as real, at, limits);
  }

  lemma StreakGoesOn(e: Exec, limits: Limits, n: nat, at: int)
    requires Sane(limits) && 0 < n <= limits.losses && StreakDone(e, limits, n - 1, at)
    ensures StreakDone(FoldRow(e, StreakRow(limits, n, at), limits), limits, n, at)
  {
    FlowRow(e, n, -1.0, at, limits);
    StreakStateStep(limits, n, at);
  }

  lemma FoldLast(e: Exec, rows: seq<OutcomeRow>, row: OutcomeRow, limits: Limits)
    ensures Fold(e, rows + [row], limits) == FoldRow(Fold(e, rows, limits), row, limits)
  {
    assert (rows + [row])[..|rows|] == rows;
  }

  lemma {:induction false} StreakHalts(e: Exec, limits: Limits, n: nat, at: int)
    requires Sane(limits) && n <= limits.losses
    requires e.processed == {} && Flow in e.states && e.states[Flow] == Fresh(at)
    ensures StreakDone(Fold(e, Streak(limits, n + 1, at), limits), limits, n, at)
  {
    FoldLast(e, Streak(limits, n, at), StreakRow(limits, n, at), limits);
    if n == 0 {
      StreakStarts(e, limits, at);
    } else {
      StreakHalts(e, limits, n - 1, at);
      StreakGoesOn(Fold(e, Streak(limits, n, at), limits), limits, n, at);
    }
  }

  /**
   For all sane limits and every cooldown within the day: after that streak and one cooldown a signal passes, but
   a process restarted at that moment blocks it.
   */
  lemma RestartForgetsCooldown(limits: Limits, cooldown: nat)
    requires Sane(limits) && 0 < cooldown < DAY_SECS
    ensures var n := limits.losses + 1;
      var traded := Sync(Exec(FreshStates(0), {}, 0, map[]), Some(Streak(limits, n, 0)), 0, limits);
      && Flow in traded.states && Passes(traded.states[Flow], cooldown, cooldown)
      && var restarted := Restart(Gate(traded, Flow, cooldown, cooldown), Some(Streak(limits, n, cooldown)), {Flow}, cooldown, limits);
         Flow in restarted.states && !Passes(restarted.states[Flow], cooldown, cooldown)
  {
    EveryKindIsFresh(0, Flow);
    EveryKindIsFresh(cooldown, Flow);
    StreakHalts(Exec(FreshStates(0), {}, 0, map[]), limits, limits.losses, 0);
    var traded := Sync(Exec(FreshStates(0), {}, 0, map[]), Some(Streak(limits, limits.losses + 1, 0)), 0, limits);
    var gated := Gate(traded, Flow, cooldown, cooldown);
    StreakHalts(Exec(FreshStates(cooldown), {}, Day(cooldown), gated.disk), limits, limits.losses, cooldown);
  }

  /**
   A start-up whose query fails can open a gate as well, for all limits with more than one loss: a profit that is
   read and then counted again hides a loss that takes the day below its limit.
   */
  lemma DoubledProfitOpensGate(limits: Limits, at: int, later: int, cooldown: nat)
    requires Sane(limits) && limits.losses >= 2 && Day(later) == Day(at)
    ensures var win, loss := OutcomeRow(0, "flow", 1.0, at), OutcomeRow(1, "flow", -limits.dailyLoss - 2.0, at);
      var traded := Sync(Exec(FreshStates(at), {}, Day(at), map[]), Some([] + [win]), at, limits);
      var running := Sync(traded, Some([] + [win] + [loss]), at, limits);
      var restarted := Sync(Restart(traded, None, {Flow}, at, limits), Some([] + [win] + [loss]), at, limits);
      && Flow in running.states && !Passes(running.states[Flow], later, cooldown)
      && Flow in restarted.states && Passes(restarted.states[Flow], later, cooldown)
  {
    var x := -limits.dailyLoss - 2.0;
    var win, loss := OutcomeRow(0, "flow", 1.0, at), OutcomeRow(1, "flow", x, at);
    var e0 := Exec(FreshStates(at), {}, Day(at), map[]);
    EveryKindIsFresh(at, Flow);
    FoldLast(e0, [], win, limits);
    FlowRow(e0, 0, 1.0, at, limits);
    var traded := Sync(e0, Some([] + [win]), at, limits);
    var won := Strategy(1.0, Day(at), 0, false, None, None);
    assert traded.states[Flow] == won && traded.disk[Flow] == won && traded.processed == {0};
    FoldLast(traded, [] + [win], loss, limits);
    FoldLast(traded, [], win, limits);
    FlowRow(traded, 1, x, at, limits);
    var r := Restart(traded, None, {Flow}, at, limits);
    assert r.states[Flow] == won && r.processed == {};
    FoldLast(r, [] + [win], loss, limits);
    FoldLast(r, [], win, limits);
    FlowRow(r, 0, 1.0, at, limits);
    FlowRow(FoldRow(r, win, limits), 1, x, at, limits);
  }
}
