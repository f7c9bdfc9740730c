/**
 Folding closed quant positions into the per-strategy breakers, exactly once, across repeated queries,
 duplicate joined rows, midnight and restarts of the process.

 A sync is one step without a midnight inside it; the loop reads the clock for every row.  The query is an
 input: its rows are any sequence that mentions exactly the positions the WHERE clause selects, each any
 positive number of times, or the query fails.  All signals joined to a position have one kind.  Writes of
 strategy_risk_state rows succeed; at start-up each of the four reads may fail.
 */
module OutcomeSync {
  import opened Positions
  import opened Breaker

  datatype Kind = Flow | CrossMarket | MeanReversion | ResolutionProximity

  function ParseKind(text: string): Option<Kind> {
    if text == "flow" then Some(Flow)
    else if text == "cross_market" then Some(CrossMarket)
    else if text == "mean_reversion" then Some(MeanReversion)
    else if text == "resolution_proximity" then Some(ResolutionProximity)
    else None
  }

  /** The text of a kind in the database. */
  function Label(kind: Kind): string {
    match kind
    case Flow => "flow"
    case CrossMarket => "cross_market"
    case MeanReversion => "mean_reversion"
    case ResolutionProximity => "resolution_proximity"
  }

  /** Stored kinds are read back as they were written, and no other text is taken for one. */
  lemma KindRoundTrip(text: string, kind: Kind)
    ensures ParseKind(text) == Some(kind) <==> text == Label(kind)
  {
    assert "flow"[0] == 'f' && "cross_market"[0] == 'c' && "mean_reversion"[0] == 'm' && "resolution_proximity"[0] == 'r';
  }

  /** A closed quant position with its signal's kind, realised P&L and UTC day of the exit. */
  datatype Trade = ClosedPosition(kind: string, pnl: real, day: int)
  type Book = map<nat, Trade>

  /** A joined row, with the clock reading at which the loop gets to it. */
  datatype OutcomeRow = OutcomeRow(id: nat, kind: string, pnl: real, readAt: int)

  datatype Exec = Exec(states: map<Kind, Strategy>, processed: set<nat>, processedDate: int, disk: map<Kind, Strategy>)

  function FreshStates(now: int): map<Kind, Strategy> {
    map[Flow := Fresh(now), CrossMarket := Fresh(now), MeanReversion := Fresh(now), ResolutionProximity := Fresh(now)]
  }

  lemma EveryKindIsFresh(now: int, k: Kind)
    ensures k in FreshStates(now) && FreshStates(now)[k] == Fresh(now)
  {
    match k
    case Flow =>
    case CrossMarket =>
    case MeanReversion =>
    case ResolutionProximity =>
  }

  // ── The executor's operations ─────────────────────────────────────────

  /** record_strategy_outcome: zero P&L is noise; anything else is recorded and persisted. */
  function RecordStrategy(e: Exec, kind: Kind, pnl: real, now: int, limits: Limits): Exec {
    if pnl == 0.0 || kind !in e.states then e
    else
      var s := RecordOutcome(e.states[kind], now, pnl, limits);
      e.(states := e.states[kind := s], disk := e.disk[kind := s])
  }

  function FoldRow(e: Exec, row: OutcomeRow, limits: Limits): Exec {
    if row.id in e.processed then e
    else
      var e' := e.(processed := e.processed + {row.id});
      var kind := ParseKind(row.kind);
      if kind.None? then e' else RecordStrategy(e', kind.value, row.pnl, row.readAt, limits)
  }

  function Fold(e: Exec, rows: seq<OutcomeRow>, limits: Limits): Exec {
    if rows == [] then e else FoldRow(Fold(e, rows[..|rows| - 1], limits), rows[|rows| - 1], limits)
  }

  function ClearAtMidnight(e: Exec, now: int): Exec {
    if Day(now) != e.processedDate then e.(processed := {}, processedDate := Day(now)) else e
  }

  function Sync(e: Exec, answer: Option<seq<OutcomeRow>>, now: int, limits: Limits): Exec {
    var cleared := ClearAtMidnight(e, now);
    if answer.None? then cleared else Fold(cleared, answer.value, limits)
  }

  /** A strategy whose read fails, or that has no row, starts afresh. */
  function Loaded(e: Exec, loaded: set<Kind>, now: int): Exec {
    e.(states := map k | k in e.states :: if k in loaded && k in e.disk then e.disk[k] else Fresh(now))
  }

  /** A new process over the same database: fresh states, one sync, then every state overwritten by what was read. */
  function Restart(e: Exec, answer: Option<seq<OutcomeRow>>, loaded: set<Kind>, now: int, limits: Limits): Exec {
    Loaded(Sync(Exec(FreshStates(now), {}, Day(now), e.disk), answer, now, limits), loaded, now)
  }

  function Gate(e: Exec, kind: Kind, now: int, cooldown: nat): Exec {
    if kind in e.states then e.(states := e.states[kind := Refresh(e.states[kind], now, cooldown)]) else e
  }

  /** The running executor. */
  class QuantExecutor {
    var states: map<Kind, Strategy>
    var processed: set<nat>
    var processedDate: int
    var disk: map<Kind, Strategy>

    function Value(): (e: Exec)
      reads this
    {
      Exec(states, processed, processedDate, disk)
    }

    constructor (now: int, stored: map<Kind, Strategy>)
      ensures Value() == Exec(FreshStates(now), {}, Day(now), stored)
    {
      states, processed, processedDate, disk := FreshStates(now), {}, Day(now), stored;
    }

    method RecordStrategyOutcome(kind: Kind, pnl: real, now: int, limits: Limits)
      modifies this
      ensures Value() == RecordStrategy(old(Value()), kind, pnl, now, limits)
    {
      if pnl == 0.0 {
        return;
      }
      if kind in states {
        states := states[kind := RecordOutcome(states[kind], now, pnl, limits)];
        disk := disk[kind := states[kind]];
      }
    }

    method SyncStrategyOutcomes(answer: Option<seq<OutcomeRow>>, now: int, limits: Limits)
      modifies this
      ensures Value() == Sync(old(Value()), answer, now, limits)
    {
      if Day(now) != processedDate {
        processed := {};
        processedDate := Day(now);
      }
      if answer.None? {
        return;
      }
      ghost var cleared := Value();
      var rows := answer.value;
      for i := 0 to |rows|
        invariant Value() == Fold(cleared, rows[..i], limits)
      {
        assert rows[..i + 1][..i] == rows[..i];
        if rows[i].id in processed {
          continue;
        }
        processed := processed + {rows[i].id};
        var kind := ParseKind(rows[i].kind);
        if kind.Some? {
          RecordStrategyOutcome(kind.value, rows[i].pnl, rows[i].readAt, limits);
        }
      }
      assert rows[..|rows|] == rows;
    }

    method StartUp(answer: Option<seq<OutcomeRow>>, loaded: set<Kind>, now: int, limits: Limits)
      requires states == FreshStates(now) && processed == {} && processedDate == Day(now)
      modifies this
      ensures Value() == Restart(old(Value()), answer, loaded, now, limits)
    {
      SyncStrategyOutcomes(answer, now, limits);
      states := map k | k in states :: if k in loaded && k in disk then disk[k] else Fresh(now);
    }
  }

  // ── Sums over sets of positions ───────────────────────────────────────

  ghost function Total(book: Book, ids: set<nat>): real
    requires ids <= book.Keys
  {
    if ids == {} then 0.0 else var id :| id in ids; book[id].pnl + Total(book, ids - {id})
  }

  lemma {:induction false} TotalSplit(book: Book, ids: set<nat>, id: nat)
    requires ids <= book.Keys && id in ids
    ensures Total(book, ids) == book[id].pnl + Total(book, ids - {id})
    decreases ids
  {
    var pick :| pick in ids && Total(book, ids) == book[pick].pnl + Total(book, ids - {pick});
    if pick != id {
      TotalSplit(book, ids - {pick}, id);
      TotalSplit(book, ids - {id}, pick);
      assert ids - {pick} - {id} == ids - {id} - {pick};
    }
  }

  lemma {:induction false} TotalOfZeros(book: Book, ids: set<nat>)
    requires ids <= book.Keys && forall id :: id in ids ==> book[id].pnl == 0.0
    ensures Total(book, ids) == 0.0
    decreases ids
  {
    if ids != {} {
      var id :| id in ids;
      TotalSplit(book, ids, id);
      TotalOfZeros(book, ids - {id});
    }
  }

  lemma {:induction false} TotalIgnoresOthers(book: Book, book': Book, ids: set<nat>)
    requires ids <= book.Keys && ids <= book'.Keys && forall id :: id in ids ==> book[id] == book'[id]
    ensures Total(book, ids) == Total(book', ids)
    decreases ids
  {
    if ids != {} {
      var id :| id in ids;
      TotalSplit(book, ids, id);
      TotalSplit(book', ids, id);
      TotalIgnoresOthers(book, book', ids - {id});
    }
  }

  ghost function OfKind(book: Book, ids: set<nat>, kind: Kind): (r: set<nat>)
    requires ids <= book.Keys
  {
    set id | id in ids && ParseKind(book[id].kind) == Some(kind)
  }

  /** The positions of one strategy that closed on one UTC day. */
  ghost function ClosedOn(book: Book, day: int, kind: Kind): set<nat> {
    set id | id in book && book[id].day == day && ParseKind(book[id].kind) == Some(kind)
  }

  // ── One fold ──────────────────────────────────────────────────────────

  /** The day P&L a state shows after a refresh on that day. */
  function View(s: Strategy, day: int): real { if s.date == day then s.pnl else 0.0 }

  ghost predicate AllKinds(states: map<Kind, Strategy>) { forall k: Kind :: k in states }

  ghost predicate FromBook(rows: seq<OutcomeRow>, book: Book) {
    forall i :: 0 <= i < |rows| ==>
      rows[i].id in book && rows[i].kind == book[rows[i].id].kind && rows[i].pnl == book[rows[i].id].pnl
  }

  /** No midnight falls inside the loop. */
  ghost predicate ReadOn(rows: seq<OutcomeRow>, day: int) {
    forall i :: 0 <= i < |rows| ==> Day(rows[i].readAt) == day
  }

  function Ids(rows: seq<OutcomeRow>): set<nat> { set i | 0 <= i < |rows| :: rows[i].id }

  ghost predicate Counts(book: Book, ids: set<nat>, kind: Kind)
    requires ids <= book.Keys
  {
    exists id :: id in OfKind(book, ids, kind) && book[id].pnl != 0.0
  }

  /** What a fold from `e` to `e'` did to one strategy: each id in `added` once, and if any counted, it is stored. */
  ghost predicate FoldedKind(e: Exec, e': Exec, added: set<nat>, book: Book, day: int, k: Kind)
    requires added <= book.Keys && k in e.states && k in e'.states
  {
    && View(e'.states[k], day) == View(e.states[k], day) + Total(book, OfKind(book, added, k))
    && if Counts(book, added, k)
       then k in e'.disk && e'.disk[k] == e'.states[k] && e'.disk[k].date == day
       else SameFor(e, e', k)
  }

  ghost predicate SameFor(e: Exec, e': Exec, k: Kind)
    requires k in e.states && k in e'.states
  {
    e'.states[k] == e.states[k] && (k in e'.disk <==> k in e.disk) && (k in e.disk ==> e'.disk[k] == e.disk[k])
  }

  ghost predicate Folded(e: Exec, e': Exec, added: set<nat>, book: Book, day: int)
    requires added <= book.Keys
  {
    && AllKinds(e.states) && AllKinds(e'.states)
    && e'.processed == e.processed + added && added !! e.processed
    && e'.processedDate == e.processedDate
    && forall k: Kind :: FoldedKind(e, e', added, book, day, k)
  }

  /** One new position, seen from its own strategy. */
  lemma OwnKind(e: Exec, e1: Exec, e2: Exec, id: nat, now: int, limits: Limits, added: set<nat>, book: Book, k: Kind)
    requires added <= book.Keys && k in e.states && k in e1.states && FoldedKind(e, e1, added, book, Day(now), k)
    requires id in book && id !in added && ParseKind(book[id].kind) == Some(k)
    requires e2 == RecordStrategy(e1, k, book[id].pnl, now, limits)
    ensures FoldedKind(e, e2, added + {id}, book, Day(now), k)
  {
    var mine, mine' := OfKind(book, added, k), OfKind(book, added + {id}, k);
    assert mine' == mine + {id} && mine' - {id} == mine;
    TotalSplit(book, mine', id);
    if book[id].pnl != 0.0 {
      assert id in mine' && Counts(book, added + {id}, k);
    } else {
      assert Counts(book, added + {id}, k) == Counts(book, added, k);
    }
  }

  /** One new position, seen from any other strategy. */
  lemma OtherKind(e: Exec, e1: Exec, e2: Exec, id: nat, added: set<nat>, book: Book, day: int, k: Kind)
    requires added <= book.Keys && k in e.states && k in e1.states && FoldedKind(e, e1, added, book, day, k)
    requires id in book && ParseKind(book[id].kind) != Some(k)
    requires k in e2.states && SameFor(e1, e2, k)
    ensures FoldedKind(e, e2, added + {id}, book, day, k)
  {
    assert OfKind(book, added + {id}, k) == OfKind(book, added, k);
    assert Counts(book, added + {id}, k) == Counts(book, added, k);
  }

  lemma FoldRowOnce(e: Exec, e1: Exec, row: OutcomeRow, limits: Limits, added: set<nat>, book: Book)
    requires added <= book.Keys && Folded(e, e1, added, book, Day(row.readAt))
    requires row.id in book && row.kind == book[row.id].kind && row.pnl == book[row.id].pnl && row.id !in e1.processed
    ensures Folded(e, FoldRow(e1, row, limits), added + {row.id}, book, Day(row.readAt))
  {
    var marked := e1.(processed := e1.processed + {row.id});
    var e2 := FoldRow(e1, row, limits);
    var kind := ParseKind(row.kind);
    forall k: Kind ensures k in e2.states && FoldedKind(e, e2, added + {row.id}, book, Day(row.readAt), k) {
      assert FoldedKind(e, e1, added, book, Day(row.readAt), k);
      assert FoldedKind(e, marked, added, book, Day(row.readAt), k);
      if kind == Some(k) {
        OwnKind(e, marked, e2, row.id, row.readAt, limits, added, book, k);
      } else {
        OtherKind(e, marked, e2, row.id, added, book, Day(row.readAt), k);
      }
    }
  }

  /** Whatever the order and the duplicates, a fold adds each position it has not seen exactly once. */
  lemma {:induction false} FoldAddsOnce(e: Exec, rows: seq<OutcomeRow>, day: int, limits: Limits, book: Book)
    requires AllKinds(e.states) && FromBook(rows, book) && ReadOn(rows, day)
    ensures Ids(rows) <= book.Keys
    ensures Folded(e, Fold(e, rows, limits), Ids(rows) - e.processed, book, day)
  {
    if rows == [] {
      forall k: Kind ensures OfKind(book, {}, k) == {} {}
      assert Ids(rows) - e.processed == {};
    } else {
      var before, row := rows[..|rows| - 1], rows[|rows| - 1];
      assert row.readAt == rows[|rows| - 1].readAt;
      FoldAddsOnce(e, before, day, limits, book);
      var e1 := Fold(e, before, limits);
      var added := Ids(before) - e.processed;
      if row.id !in e1.processed {
        FoldRowOnce(e, e1, row, limits, added, book);
      }
      assert rows == before + [row];
      assert Ids(rows) == Ids(before) + {row.id} by {
        forall id | id in Ids(before) + {row.id} ensures id in Ids(rows) {
          if id == row.id {
            assert rows[|rows| - 1].id == id;
          } else {
            var i :| 0 <= i < |before| && before[i].id == id;
            assert rows[i].id == id;
          }
        }
      }
      assert (if row.id in e1.processed then added else added + {row.id}) == Ids(rows) - e.processed;
    }
  }

  // ── Whole runs ────────────────────────────────────────────────────────

  datatype Step =
    | Close(id: nat, kind: string, pnl: real)
    | Ask(strategy: Kind, cooldown: nat)
    | SyncNow(answer: Option<seq<OutcomeRow>>)
    | RestartNow(answer: Option<seq<OutcomeRow>>, loaded: set<Kind>)

  /** `gap` remembers, per strategy, what the last start-up of the processed day left out of the day's P&L. */
  datatype Sys = Sys(exec: Exec, book: Book, now: int, gap: map<Kind, real>)

  function Gap(gap: map<Kind, real>, k: Kind): real { if k in gap then gap[k] else 0.0 }

  /** What the processed positions of a strategy sum up to, beyond what its state shows. */
  ghost function Shortfall(e: Exec, book: Book, k: Kind): real {
    if e.processed <= book.Keys && k in e.states
    then Total(book, OfKind(book, e.processed, k)) - View(e.states[k], e.processedDate) else 0.0
  }

  /** The rows the query returns: every position closed since midnight, any number of times, in any order. */
  ghost predicate Answers(rows: seq<OutcomeRow>, book: Book, day: int) {
    FromBook(rows, book) && ReadOn(rows, day) && Ids(rows) == set id | id in book && book[id].day >= day
  }

  ghost predicate Timely(rows: seq<OutcomeRow>, from: int, to: int) {
    forall i :: 0 <= i < |rows| ==> from <= rows[i].readAt <= to
  }

  ghost predicate Enabled(s: Sys, step: Step, at: int) {
    && s.now <= at
    && match step {
         case Close(id, _, _) => id !in s.book
         case Ask(_, _) => true
         case SyncNow(answer) => answer.Some? ==> Answers(answer.value, s.book, Day(at)) && Timely(answer.value, s.now, at)
         case RestartNow(answer, _) => answer.Some? ==> Answers(answer.value, s.book, Day(at)) && Timely(answer.value, s.now, at)
       }
  }

  function KeptGap(s: Sys, at: int): map<Kind, real> { if Day(at) != s.exec.processedDate then map[] else s.gap }

  /** A step that is not possible changes nothing. */
  ghost function Next(s: Sys, step: Step, at: int, limits: Limits): Sys {
    if !Enabled(s, step, at) then s
    else match step
      case Close(id, kind, pnl) => s.(book := s.book[id := ClosedPosition(kind, pnl, Day(at))], now := at)
      case Ask(kind, cooldown) => s.(exec := Gate(s.exec, kind, at, cooldown), now := at)
      case SyncNow(answer) => Sys(Sync(s.exec, answer, at, limits), s.book, at, KeptGap(s, at))
      case RestartNow(answer, loaded) =>
        var e := Restart(s.exec, answer, loaded, at, limits);
        Sys(e, s.book, at, map k | k in e.states :: Shortfall(e, s.book, k))
  }

  ghost function Run(s: Sys, steps: seq<(Step, int)>, limits: Limits): Sys
    decreases |steps|
  {
    if steps == [] then s else Run(Next(s, steps[0].0, steps[0].1, limits), steps[1..], limits)
  }

  ghost predicate BookOk(e: Exec, book: Book, now: int) {
    && e.processedDate <= Day(now)
    && (forall id :: id in book ==> book[id].day <= Day(now))
    && (forall id :: id in e.processed ==> id in book && book[id].day == e.processedDate)
  }

  /** A state dated like the processed set shows its total short of the gap; one refreshed later shows nothing yet. */
  ghost predicate StateOk(e: Exec, book: Book, now: int, gap: map<Kind, real>, k: Kind)
    requires e.processed <= book.Keys && k in e.states
  {
    && e.states[k].date <= Day(now)
    && if e.states[k].date > e.processedDate then e.states[k].pnl == 0.0
       else View(e.states[k], e.processedDate) + Gap(gap, k) == Total(book, OfKind(book, e.processed, k))
  }

  /** A stored state was written because of a non-zero outcome closed on its date. */
  ghost predicate DiskOk(e: Exec, book: Book, k: Kind) {
    k in e.disk ==> exists id :: id in ClosedOn(book, e.disk[k].date, k) && book[id].pnl != 0.0
  }

  ghost predicate Inv(s: Sys, limits: Limits) {
    && BookOk(s.exec, s.book, s.now) && AllKinds(s.exec.states)
    && (forall k: Kind :: StateOk(s.exec, s.book, s.now, s.gap, k) && DiskOk(s.exec, s.book, k))
    && (forall k: Kind :: Safe(s.exec.states[k], limits) && (k in s.exec.disk ==> Safe(s.exec.disk[k], limits)))
  }

  /** The first process over an empty database. */
  ghost function Boot(now: int): Sys { Sys(Exec(FreshStates(now), {}, Day(now), map[]), map[], now, map[]) }

  lemma BootOk(now: int, limits: Limits)
    requires Sane(limits)
    ensures Inv(Boot(now), limits)
  {
    var s := Boot(now);
    forall k: Kind ensures k in s.exec.states && s.exec.states[k] == Fresh(now) && OfKind(s.book, {}, k) == {} {
      EveryKindIsFresh(now, k);
    }
  }

  lemma {:induction false} FoldIsSafe(e: Exec, rows: seq<OutcomeRow>, limits: Limits)
    requires Sane(limits) && AllKinds(e.states)
    requires forall k: Kind :: Safe(e.states[k], limits) && (k in e.disk ==> Safe(e.disk[k], limits))
    ensures var e' := Fold(e, rows, limits);
      AllKinds(e'.states) && forall k: Kind :: Safe(e'.states[k], limits) && (k in e'.disk ==> Safe(e'.disk[k], limits))
  {
    if rows != [] {
      FoldIsSafe(e, rows[..|rows| - 1], limits);
    }
  }

  lemma CloseKeepsInv(s: Sys, id: nat, kind: string, pnl: real, at: int, limits: Limits)
    requires Inv(s, limits)
    ensures Inv(Next(s, Close(id, kind, pnl), at, limits), limits)
  {
    var s' := Next(s, Close(id, kind, pnl), at, limits);
    if Enabled(s, Close(id, kind, pnl), at) {
      forall k: Kind ensures StateOk(s'.exec, s'.book, s'.now, s'.gap, k) && DiskOk(s'.exec, s'.book, k) {
        assert StateOk(s.exec, s.book, s.now, s.gap, k) && DiskOk(s.exec, s.book, k);
        assert OfKind(s'.book, s.exec.processed, k) == OfKind(s.book, s.exec.processed, k);
        TotalIgnoresOthers(s.book, s'.book, OfKind(s.book, s.exec.processed, k));
        if k in s.exec.disk {
          var w :| w in ClosedOn(s.book, s.exec.disk[k].date, k) && s.book[w].pnl != 0.0;
          assert w in ClosedOn(s'.book, s.exec.disk[k].date, k);
        }
      }
    }
  }

  lemma AskKeepsInv(s: Sys, kind: Kind, cooldown: nat, at: int, limits: Limits)
    requires Sane(limits) && Inv(s, limits)
    ensures Inv(Next(s, Ask(kind, cooldown), at, limits), limits)
  {
    var s' := Next(s, Ask(kind, cooldown), at, limits);
    if Enabled(s, Ask(kind, cooldown), at) {
      forall k: Kind ensures StateOk(s'.exec, s'.book, s'.now, s'.gap, k) && DiskOk(s'.exec, s'.book, k) && Safe(s'.exec.states[k], limits) {
        assert StateOk(s.exec, s.book, s.now, s.gap, k) && DiskOk(s.exec, s.book, k) && Safe(s.exec.states[k], limits);
        if s'.exec.states[k].date == s.exec.processedDate != s.exec.states[k].date {
          assert View(s.exec.states[k], s.exec.processedDate) == 0.0;
        }
      }
    }
  }

  /** Midnight: nothing of the new day has been counted, whether or not a signal has refreshed the state. */
  lemma ClearKeepsInv(s: Sys, at: int, limits: Limits)
    requires Inv(s, limits) && s.now <= at
    ensures Inv(Sys(ClearAtMidnight(s.exec, at), s.book, at, KeptGap(s, at)), limits)
  {
    var e := ClearAtMidnight(s.exec, at);
    forall k: Kind ensures StateOk(e, s.book, at, KeptGap(s, at), k) && DiskOk(e, s.book, k) {
      assert StateOk(s.exec, s.book, s.now, s.gap, k) && DiskOk(s.exec, s.book, k);
      assert OfKind(s.book, {}, k) == {};
    }
  }

  lemma {:induction false} TotalUnion(book: Book, a: set<nat>, b: set<nat>)
    requires a <= book.Keys && b <= book.Keys && a !! b
    ensures Total(book, a + b) == Total(book, a) + Total(book, b)
    decreases b
  {
    if b == {} {
      assert a + b == a;
    } else {
      var id :| id in b;
      TotalSplit(book, b, id);
      TotalSplit(book, a + b, id);
      assert a + b - {id} == a + (b - {id});
      TotalUnion(book, a, b - {id});
    }
  }

  /** A successful sync processes exactly the positions closed today. */
  lemma SyncProcessesToday(s: Sys, rows: seq<OutcomeRow>, at: int, limits: Limits)
    requires Inv(s, limits) && s.now <= at && Answers(rows, s.book, Day(at))
    ensures var e := Sync(s.exec, Some(rows), at, limits);
      && e.processedDate == Day(at) && e.processed == Ids(rows)
      && Ids(rows) == set id | id in s.book && s.book[id].day == Day(at)
  {
    FoldAddsOnce(ClearAtMidnight(s.exec, at), rows, Day(at), limits, s.book);
    forall id | id in s.book && s.book[id].day >= Day(at) ensures s.book[id].day == Day(at) {}
    forall id | id in ClearAtMidnight(s.exec, at).processed ensures id in Ids(rows) {}
  }

  lemma FoldKeepsStateOk(e: Exec, e': Exec, added: set<nat>, book: Book, at: int, gap: map<Kind, real>, k: Kind)
    requires added <= book.Keys && Folded(e, e', added, book, Day(at))
    requires e.processed <= book.Keys && StateOk(e, book, at, gap, k) && e.processedDate == Day(at)
    ensures StateOk(e', book, at, gap, k)
  {
    assert FoldedKind(e, e', added, book, Day(at), k);
    assert OfKind(book, e.processed + added, k) == OfKind(book, e.processed, k) + OfKind(book, added, k);
    TotalUnion(book, OfKind(book, e.processed, k), OfKind(book, added, k));
  }

  lemma SyncKeepsInv(s: Sys, rows: seq<OutcomeRow>, at: int, limits: Limits)
    requires Sane(limits) && Inv(s, limits) && s.now <= at && Answers(rows, s.book, Day(at))
    ensures Inv(Sys(Sync(s.exec, Some(rows), at, limits), s.book, at, KeptGap(s, at)), limits)
    ensures SyncedDisk(Sync(s.exec, Some(rows), at, limits), s.exec.disk, s.book, Ids(rows) - ClearAtMidnight(s.exec, at).processed)
  {
    ClearKeepsInv(s, at, limits);
    var e, e' := ClearAtMidnight(s.exec, at), Sync(s.exec, Some(rows), at, limits);
    FoldAddsOnce(e, rows, Day(at), limits, s.book);
    FoldIsSafe(e, rows, limits);
    SyncProcessesToday(s, rows, at, limits);
    var added := Ids(rows) - e.processed;
    forall k: Kind
      ensures StateOk(e', s.book, at, KeptGap(s, at), k) && DiskOk(e', s.book, k) && StoredIfCounted(e', s.exec.disk, s.book, added, k)
    {
      assert StateOk(e, s.book, at, KeptGap(s, at), k) && DiskOk(e, s.book, k) && FoldedKind(e, e', added, s.book, Day(at), k);
      FoldKeepsStateOk(e, e', added, s.book, at, KeptGap(s, at), k);
      if Counts(s.book, added, k) {
        var w :| w in OfKind(s.book, added, k) && s.book[w].pnl != 0.0;
        assert w in ClosedOn(s.book, Day(at), k);
      }
    }
  }

  /** After a sync, a strategy with a newly counted outcome is stored as it is in memory; the others' rows are untouched. */
  ghost predicate SyncedDisk(e': Exec, before: map<Kind, Strategy>, book: Book, added: set<nat>) {
    && added <= book.Keys && AllKinds(e'.states)
    && forall k: Kind :: StoredIfCounted(e', before, book, added, k)
  }

  ghost predicate StoredIfCounted(e': Exec, before: map<Kind, Strategy>, book: Book, added: set<nat>, k: Kind)
    requires added <= book.Keys && k in e'.states
  {
    if Counts(book, added, k) then k in e'.disk && e'.disk[k] == e'.states[k]
    else (k in e'.disk <==> k in before) && (k in before ==> e'.disk[k] == before[k])
  }

  /** What a new process starts its sync from. */
  lemma FreshProcessOk(s: Sys, at: int, limits: Limits)
    requires Sane(limits) && Inv(s, limits) && s.now <= at
    ensures Inv(Sys(Exec(FreshStates(at), {}, Day(at), s.exec.disk), s.book, at, map[]), limits)
  {
    var e := Exec(FreshStates(at), {}, Day(at), s.exec.disk);
    forall k: Kind
      ensures k in e.states && Safe(e.states[k], limits) && StateOk(e, s.book, at, map[], k) && DiskOk(e, s.book, k)
    {
      EveryKindIsFresh(at, k);
      assert OfKind(s.book, {}, k) == {};
      assert DiskOk(s.exec, s.book, k);
    }
  }

  /** The sync a new process starts with, before the states are read. */
  function StartSync(s: Sys, answer: Option<seq<OutcomeRow>>, at: int, limits: Limits): Exec {
    Sync(Exec(FreshStates(at), {}, Day(at), s.exec.disk), answer, at, limits)
  }

  lemma StartSyncKeepsInv(s: Sys, answer: Option<seq<OutcomeRow>>, at: int, limits: Limits)
    requires Sane(limits) && Inv(s, limits) && s.now <= at && (answer.Some? ==> Answers(answer.value, s.book, Day(at)))
    ensures var e := StartSync(s, answer, at, limits);
      && Inv(Sys(e, s.book, at, map[]), limits) && e.processedDate == Day(at)
      && e.processed == (if answer.Some? then Ids(answer.value) else {})
      && (if answer.Some? then SyncedDisk(e, s.exec.disk, s.book, Ids(answer.value)) else e.disk == s.exec.disk)
  {
    FreshProcessOk(s, at, limits);
    var fresh' := Sys(Exec(FreshStates(at), {}, Day(at), s.exec.disk), s.book, at, map[]);
    if answer.Some? {
      SyncKeepsInv(fresh', answer.value, at, limits);
      SyncProcessesToday(fresh', answer.value, at, limits);
      assert Ids(answer.value) - ClearAtMidnight(fresh'.exec, at).processed == Ids(answer.value);
    }
  }

  lemma RestartKeepsInv(s: Sys, answer: Option<seq<OutcomeRow>>, loaded: set<Kind>, at: int, limits: Limits)
    requires Sane(limits) && Inv(s, limits) && Enabled(s, RestartNow(answer, loaded), at)
    ensures Inv(Next(s, RestartNow(answer, loaded), at, limits), limits)
  {
    StartSyncKeepsInv(s, answer, at, limits);
    var synced, s' := StartSync(s, answer, at, limits), Next(s, RestartNow(answer, loaded), at, limits);
    forall k: Kind
      ensures StateOk(s'.exec, s.book, at, s'.gap, k) && DiskOk(s'.exec, s.book, k) && Safe(s'.exec.states[k], limits)
    {
      assert StateOk(synced, s.book, at, map[], k) && DiskOk(synced, s.book, k) && Safe(synced.states[k], limits);
      if k in synced.disk {
        var w :| w in ClosedOn(s.book, synced.disk[k].date, k) && s.book[w].pnl != 0.0;
        assert s.book[w].day <= Day(at);
      }
    }
  }

  /**
   Exactly what a start-up leaves out of a strategy's day P&L: nothing if query and read answered, the whole day
   if only the read failed, and the opposite of what was read if the query failed, for the next sync counts it again.
   */
  lemma StartUpGap(s: Sys, answer: Option<seq<OutcomeRow>>, loaded: set<Kind>, at: int, limits: Limits, k: Kind)
    requires Sane(limits) && Inv(s, limits) && Enabled(s, RestartNow(answer, loaded), at)
    ensures var s' := Next(s, RestartNow(answer, loaded), at, limits);
      && k in s'.exec.states
      && Gap(s'.gap, k) ==
           (if answer.Some? then if k in loaded then 0.0 else Total(s.book, ClosedOn(s.book, Day(at), k))
            else if k in loaded && k in s.exec.disk then -View(s.exec.disk[k], Day(at)) else 0.0)
      && (k !in loaded ==> s'.exec.states[k] == Fresh(at))
  {
    StartUpShortfall(s, answer, loaded, at, limits, k);
    if answer.Some? {
      TodayOfKind(s, answer.value, at, k);
      if k in loaded { AnsweredView(s, answer.value, loaded, at, limits, k); }
    } else {
      assert OfKind(s.book, {}, k) == {};
    }
  }

  /** Before anything is known about the answers: the gap is the difference, for what was processed and read. */
  lemma StartUpShortfall(s: Sys, answer: Option<seq<OutcomeRow>>, loaded: set<Kind>, at: int, limits: Limits, k: Kind)
    requires Sane(limits) && Inv(s, limits) && Enabled(s, RestartNow(answer, loaded), at)
    ensures var s', e := Next(s, RestartNow(answer, loaded), at, limits), StartSync(s, answer, at, limits);
      && k in s'.exec.states && k in e.states && e.processed <= s.book.Keys
      && e.processed == (if answer.Some? then Ids(answer.value) else {})
      && (answer.None? ==> e.disk == s.exec.disk)
      && s'.exec.states[k] == (if k in loaded && k in e.disk then e.disk[k] else Fresh(at))
      && Gap(s'.gap, k) == Total(s.book, OfKind(s.book, e.processed, k)) - View(s'.exec.states[k], Day(at))
  {
    StartSyncKeepsInv(s, answer, at, limits);
  }

  /** A strategy that was read after an answered query shows the sum of the day. */
  lemma AnsweredView(s: Sys, rows: seq<OutcomeRow>, loaded: set<Kind>, at: int, limits: Limits, k: Kind)
    requires Sane(limits) && Inv(s, limits) && s.now <= at && Answers(rows, s.book, Day(at)) && k in loaded
    ensures var e := Loaded(StartSync(s, Some(rows), at, limits), loaded, at);
      && k in e.states && Ids(rows) <= s.book.Keys
      && View(e.states[k], Day(at)) == Total(s.book, OfKind(s.book, Ids(rows), k))
  {
    StartSyncKeepsInv(s, Some(rows), at, limits);
    var synced := StartSync(s, Some(rows), at, limits);
    assert StateOk(synced, s.book, at, map[], k) && DiskOk(synced, s.book, k);
    assert StoredIfCounted(synced, s.exec.disk, s.book, Ids(rows), k);
    if !Counts(s.book, Ids(rows), k) {
      TotalOfZeros(s.book, OfKind(s.book, Ids(rows), k));
      if k in synced.disk { UncountedRowIsOld(s, synced, rows, at, k); }
    }
  }

  lemma TodayOfKind(s: Sys, rows: seq<OutcomeRow>, at: int, k: Kind)
    requires Answers(rows, s.book, Day(at)) && Ids(rows) <= s.book.Keys
    requires forall id :: id in s.book ==> s.book[id].day <= Day(at)
    ensures OfKind(s.book, Ids(rows), k) == ClosedOn(s.book, Day(at), k)
  {
  }

  /** The stored row of a strategy without outcomes today is of an earlier day. */
  lemma UncountedRowIsOld(s: Sys, e: Exec, rows: seq<OutcomeRow>, at: int, k: Kind)
    requires Answers(rows, s.book, Day(at)) && Ids(rows) <= s.book.Keys && !Counts(s.book, Ids(rows), k)
    requires DiskOk(e, s.book, k) && k in e.disk
    ensures e.disk[k].date != Day(at)
  {
    var w :| w in ClosedOn(s.book, e.disk[k].date, k) && s.book[w].pnl != 0.0;
    assert w !in OfKind(s.book, Ids(rows), k);
  }

  lemma StepKeepsInv(s: Sys, step: Step, at: int, limits: Limits)
    requires Sane(limits) && Inv(s, limits)
    ensures Inv(Next(s, step, at, limits), limits)
  {
    if Enabled(s, step, at) {
      match step
      case Close(id, kind, pnl) => CloseKeepsInv(s, id, kind, pnl, at, limits);
      case Ask(kind, cooldown) => AskKeepsInv(s, kind, cooldown, at, limits);
      case SyncNow(answer) =>
        if answer.Some? { SyncKeepsInv(s, answer.value, at, limits); } else { ClearKeepsInv(s, at, limits); }
      case RestartNow(answer, loaded) => RestartKeepsInv(s, answer, loaded, at, limits);
    }
  }

  lemma {:induction false} RunKeepsInv(s: Sys, steps: seq<(Step, int)>, limits: Limits)
    requires Sane(limits) && Inv(s, limits)
    ensures Inv(Run(s, steps, limits), limits)
    decreases |steps|
  {
    if steps != [] {
      StepKeepsInv(s, steps[0].0, steps[0].1, limits);
      RunKeepsInv(Next(s, steps[0].0, steps[0].1, limits), steps[1..], limits);
    }
  }

  // ── Main results ──────────────────────────────────────────────────────

  predicate Folds(last: Step) { (last.SyncNow? || last.RestartNow?) && last.answer.Some? }

  lemma FoldingStep(s: Sys, last: Step, at: int, limits: Limits)
    requires Sane(limits) && Inv(s, limits) && Folds(last) && Enabled(s, last, at)
    ensures var s' := Next(s, last, at, limits);
      && Inv(s', limits) && s'.book == s.book && s'.exec.processedDate == Day(at)
      && s'.exec.processed == set id | id in s.book && s.book[id].day == Day(at)
  {
    StepKeepsInv(s, last, at, limits);
    SyncProcessesToday(s, last.answer.value, at, limits);
    if last.RestartNow? {
      StartSyncKeepsInv(s, last.answer, at, limits);
    }
  }

  /**
   Over every run, with failed queries and reads: after a successful sync or a restart every strategy, refreshed,
   shows the sum over the distinct positions of its kind that closed that day, short of exactly the gap.
   */
  lemma DayPnlExact(now: int, steps: seq<(Step, int)>, last: Step, at: int, limits: Limits, k: Kind)
    requires Sane(limits) && Folds(last) && Enabled(Run(Boot(now), steps, limits), last, at)
    ensures var s := Next(Run(Boot(now), steps, limits), last, at, limits);
      && k in s.exec.states
      && Refresh(s.exec.states[k], at, 0).pnl == Total(s.book, ClosedOn(s.book, Day(at), k)) - Gap(s.gap, k)
  {
    var s := Run(Boot(now), steps, limits);
    BootOk(now, limits);
    RunKeepsInv(Boot(now), steps, limits);
    FoldingStep(s, last, at, limits);
    FoldedPnl(Next(s, last, at, limits), limits, k);
  }

  lemma FoldedPnl(s: Sys, limits: Limits, k: Kind)
    requires Inv(s, limits) && s.exec.processedDate == Day(s.now)
    requires s.exec.processed == set id | id in s.book && s.book[id].day == Day(s.now)
    ensures k in s.exec.states
    ensures Refresh(s.exec.states[k], s.now, 0).pnl == Total(s.book, ClosedOn(s.book, Day(s.now), k)) - Gap(s.gap, k)
  {
    assert StateOk(s.exec, s.book, s.now, s.gap, k);
    assert OfKind(s.book, s.exec.processed, k) == ClosedOn(s.book, Day(s.now), k);
  }

  /** Query and this strategy's read answer at every start-up. */
  predicate Answered(step: Step, k: Kind) { step.RestartNow? ==> step.answer.Some? && k in step.loaded }

  lemma AnsweredKeepsNoGap(s: Sys, step: Step, at: int, limits: Limits, k: Kind)
    requires Sane(limits) && Inv(s, limits) && Gap(s.gap, k) == 0.0 && Answered(step, k)
    ensures Gap(Next(s, step, at, limits).gap, k) == 0.0
  {
    if step.RestartNow? && Enabled(s, step, at) {
      StartUpGap(s, step.answer, step.loaded, at, limits, k);
    }
  }

  lemma {:induction false} AnsweredHasNoGap(s: Sys, steps: seq<(Step, int)>, limits: Limits, k: Kind)
    requires Sane(limits) && Inv(s, limits) && Gap(s.gap, k) == 0.0
    requires forall i :: 0 <= i < |steps| ==> Answered(steps[i].0, k)
    ensures Gap(Run(s, steps, limits).gap, k) == 0.0
    decreases |steps|
  {
    if steps != [] {
      var (step, at) := steps[0];
      AnsweredKeepsNoGap(s, step, at, limits, k);
      StepKeepsInv(s, step, at, limits);
      AnsweredHasNoGap(Next(s, step, at, limits), steps[1..], limits, k);
    }
  }

  /** Exactly once: in runs whose start-ups were answered, the day P&L is the sum over distinct positions. */
  lemma ExactlyOnce(now: int, steps: seq<(Step, int)>, last: Step, at: int, limits: Limits, k: Kind)
    requires Sane(limits) && Folds(last) && Enabled(Run(Boot(now), steps, limits), last, at)
    requires Answered(last, k) && forall i :: 0 <= i < |steps| ==> Answered(steps[i].0, k)
    ensures var s := Next(Run(Boot(now), steps, limits), last, at, limits);
      && k in s.exec.states
      && Refresh(s.exec.states[k], at, 0).pnl == Total(s.book, ClosedOn(s.book, Day(at), k))
  {
    BootOk(now, limits);
    RunKeepsInv(Boot(now), steps, limits);
    AnsweredHasNoGap(Boot(now), steps, limits, k);
    AnsweredKeepsNoGap(Run(Boot(now), steps, limits), last, at, limits, k);
    DayPnlExact(now, steps, last, at, limits, k);
  }

  /** A gap lasts the day: no sync without a restart changes it. */
  lemma {:induction false} GapLastsTheDay(s: Sys, steps: seq<(Step, int)>, limits: Limits)
    requires forall i :: 0 <= i < |steps| ==> !steps[i].0.RestartNow? && Day(steps[i].1) == s.exec.processedDate
    ensures Run(s, steps, limits).gap == s.gap && Run(s, steps, limits).exec.processedDate == s.exec.processedDate
    decreases |steps|
  {
    if steps != [] {
      var s' := Next(s, steps[0].0, steps[0].1, limits);
      assert s'.gap == s.gap && s'.exec.processedDate == s.exec.processedDate by { SyncKeepsDate(s, steps[0].0, steps[0].1, limits); }
      GapLastsTheDay(s', steps[1..], limits);
    }
  }

  lemma SyncKeepsDate(s: Sys, step: Step, at: int, limits: Limits)
    requires !step.RestartNow? && Day(at) == s.exec.processedDate
    ensures Next(s, step, at, limits).exec.processedDate == s.exec.processedDate
  {
    if step.SyncNow? && step.answer.Some? {
      FoldKeepsDate(ClearAtMidnight(s.exec, at), step.answer.value, limits);
    }
  }

  lemma {:induction false} FoldKeepsDate(e: Exec, rows: seq<OutcomeRow>, limits: Limits)
    ensures Fold(e, rows, limits).processedDate == e.processedDate
  {
    if rows != [] {
      FoldKeepsDate(e, rows[..|rows| - 1], limits);
    }
  }

  /**
   A restarted process against one that keeps running and syncs: both day P&Ls, and exactly when they are equal.
   Without an earlier gap: when the strategy was read, or the day's sum is zero.
   */
  lemma RestartEquivalence(
      now: int, steps: seq<(Step, int)>, rows: seq<OutcomeRow>, loaded: set<Kind>, rows': seq<OutcomeRow>, at: int,
      limits: Limits, k: Kind)
    requires Sane(limits)
    requires Enabled(Run(Boot(now), steps, limits), RestartNow(Some(rows), loaded), at)
    requires Enabled(Run(Boot(now), steps, limits), SyncNow(Some(rows')), at)
    ensures var s := Run(Boot(now), steps, limits);
      var restarted, running := Restart(s.exec, Some(rows), loaded, at, limits), Sync(s.exec, Some(rows'), at, limits);
      var sum, gap := Total(s.book, ClosedOn(s.book, Day(at), k)), Gap(KeptGap(s, at), k);
      && k in restarted.states && k in running.states
      && Refresh(restarted.states[k], at, 0).pnl == (if k in loaded then sum else 0.0)
      && Refresh(running.states[k], at, 0).pnl == sum - gap
      && (gap == 0.0 ==>
            (Refresh(restarted.states[k], at, 0).pnl == Refresh(running.states[k], at, 0).pnl <==> k in loaded || sum == 0.0))
  {
    var s := Run(Boot(now), steps, limits);
    BootOk(now, limits);
    RunKeepsInv(Boot(now), steps, limits);
    DayPnlExact(now, steps, RestartNow(Some(rows), loaded), at, limits, k);
    StartUpGap(s, Some(rows), loaded, at, limits, k);
    DayPnlExact(now, steps, SyncNow(Some(rows')), at, limits, k);
  }

  /** After a sync or restart, a strategy whose day total, short of the gap, is below the limit lets no signal through. */
  lemma OverLimitIsGated(
      now: int, steps: seq<(Step, int)>, last: Step, at: int, limits: Limits, k: Kind, later: int, cooldown: nat)
    requires Sane(limits) && Day(later) == Day(at) && Folds(last) && Enabled(Run(Boot(now), steps, limits), last, at)
    ensures var s := Next(Run(Boot(now), steps, limits), last, at, limits);
      && k in s.exec.states
      && (Total(s.book, ClosedOn(s.book, Day(at), k)) - Gap(s.gap, k) < -limits.dailyLoss ==>
            !Passes(s.exec.states[k], later, cooldown))
  {
    DayPnlExact(now, steps, last, at, limits, k);
    BootOk(now, limits);
    RunKeepsInv(Boot(now), steps, limits);
    FoldingStep(Run(Boot(now), steps, limits), last, at, limits);
    assert Safe(Next(Run(Boot(now), steps, limits), last, at, limits).exec.states[k], limits);
  }

  // ── Start-ups that go unanswered ──────────────────────────────────────

  /** A strategy whose read failed passes every signal of the day until the next outcome, whatever its day total. */
  lemma FailedLoadOpensGate(s: Sys, answer: Option<seq<OutcomeRow>>, loaded: set<Kind>, at: int, limits: Limits, k: Kind, later: int, cooldown: nat)
    requires Sane(limits) && Inv(s, limits) && Enabled(s, RestartNow(answer, loaded), at) && k !in loaded
    ensures var e := Next(s, RestartNow(answer, loaded), at, limits).exec;
      k in e.states && Passes(e.states[k], later, cooldown)
  {
    StartUpGap(s, answer, loaded, at, limits, k);
  }

  /**
   If the start-up query fails, the states are still read but nothing counts as processed, so the next sync adds
   today's outcomes on top of what was read: it is off by exactly that.
   */
  lemma FailedStartupDoubleCounts(s: Sys, loaded: set<Kind>, rows: seq<OutcomeRow>, at: int, limits: Limits, k: Kind)
    requires Sane(limits) && Inv(s, limits) && s.now <= at && Answers(rows, s.book, Day(at))
    ensures var e := Sync(Restart(s.exec, None, loaded, at, limits), Some(rows), at, limits);
      var read := if k in loaded && k in s.exec.disk then View(s.exec.disk[k], Day(at)) else 0.0;
      && k in e.states
      && View(e.states[k], Day(at)) == Total(s.book, ClosedOn(s.book, Day(at), k)) + read
      && (View(e.states[k], Day(at)) == Total(s.book, ClosedOn(s.book, Day(at), k)) <==> read == 0.0)
  {
    var restart := RestartNow(None, loaded);
    var s' := Next(s, restart, at, limits);
    StepKeepsInv(s, restart, at, limits);
    StartUpGap(s, None, loaded, at, limits, k);
    SyncKeepsInv(s', rows, at, limits);
    SyncProcessesToday(s', rows, at, limits);
    var e := Sync(s'.exec, Some(rows), at, limits);
    assert StateOk(e, s.book, at, s'.gap, k);
    TodayOfKind(s, rows, at, k);
  }
}
