/**
 The dedup set shared by the arb executor and the exit handler, as a protocol.

 The executor reads the set, works for a while, persists the position as open and only then inserts the
 market; the handler persists a close and only then removes it.  Every one of those points is a separate
 step here, in any interleaving, together with reconciler promotions and process restarts.
 Arb positions only: a close of any other source removes the market id as well.  A failed first order leaves
 a plain EntryFailed row: its exchange text is assumed not to mention a one-legged entry.
 */
module Dedup {
  import opened Positions

  /** A stored arb position; `hidden` marks a one-legged EntryFailed row from before the immediate transition. */
  datatype Arb = Arb(market: string, state: State, hidden: bool)

  predicate Live(a: Arb) { a.state in {Open, ExitReady, Closing, ExitFailed} }

  datatype Executor =
    | Idle
    | Checked(market: string)   // the market was not in the set
    | Created(id: nat)          // Pending row stored, orders in flight
    | Opened(id: nat)           // row stored as Open or ExitReady, market not yet inserted

  datatype Handler =
    | Resting
    | Removing(market: string)  // close stored, market not yet removed
    | Inserting(market: string) // hidden row moved to ExitReady, market not yet inserted

  datatype Sys = Sys(rows: map<nat, Arb>, dedup: set<string>, exec: Executor, handler: Handler)

  datatype Step =
    | Signal(market: string)
    | Skip
    | Create(id: nat)
    | EntryFails
    | EntryFills(oneLegged: bool)
    | Track
    | Move(id: nat, to: State)
    | CloseRow(id: nat)
    | Remove
    | RecoverHidden(id: nat)
    | Insert
    | Promote(id: nat)                          // the reconciler: a hidden one-legged row becomes ExitFailed
    | Demote(id: nat)                           // the reconciler: a failed exit it takes for dead becomes EntryFailed
    | Restart(stale: set<nat>, answered: bool)  // whether the query for the active rows answers

  function SetState(s: Sys, id: nat, state: State): Sys
    requires id in s.rows
  {
    s.(rows := s.rows[id := s.rows[id].(state := state)])
  }

  function ActiveMarkets(rows: map<nat, Arb>): set<string> {
    set id | id in rows && !rows[id].state.Closed? && !rows[id].state.EntryFailed? :: rows[id].market
  }

  /** Start-up: old Pending rows are failed, and the set is rebuilt from the active rows, or stays empty. */
  function Restarted(s: Sys, stale: set<nat>, answered: bool): Sys {
    var rows := map id | id in s.rows ::
      if id in stale && s.rows[id].state.Pending? then s.rows[id].(state := EntryFailed) else s.rows[id];
    Sys(rows, if answered then ActiveMarkets(rows) else {}, Idle, Resting)
  }

  function Next(s: Sys, step: Step): Sys {
    match step
    case Signal(m) => if s.exec.Idle? && m !in s.dedup then s.(exec := Checked(m)) else s
    case Skip => if s.exec.Checked? then s.(exec := Idle) else s
    case Create(id) =>
      if s.exec.Checked? && id !in s.rows
      then s.(rows := s.rows[id := Arb(s.exec.market, Pending, false)], exec := Created(id)) else s
    case EntryFails =>
      if s.exec.Created? && s.exec.id in s.rows then SetState(s, s.exec.id, EntryFailed).(exec := Idle) else s
    case EntryFills(oneLegged) =>
      if s.exec.Created? && s.exec.id in s.rows
      then SetState(s, s.exec.id, if oneLegged then ExitReady else Open).(exec := Opened(s.exec.id)) else s
    case Track =>
      if s.exec.Opened? && s.exec.id in s.rows
      then s.(dedup := s.dedup + {s.rows[s.exec.id].market}, exec := Idle) else s
    case Move(id, to) =>
      if id in s.rows && Live(s.rows[id]) && Live(s.rows[id].(state := to)) then SetState(s, id, to) else s
    case CloseRow(id) =>
      if s.handler.Resting? && id in s.rows && Live(s.rows[id])
      then SetState(s, id, Closed).(handler := Removing(s.rows[id].market)) else s
    case Remove => if s.handler.Removing? then s.(dedup := s.dedup - {s.handler.market}, handler := Resting) else s
    case RecoverHidden(id) =>
      if s.handler.Resting? && id in s.rows && s.rows[id].state.EntryFailed? && s.rows[id].hidden
      then SetState(s, id, ExitReady).(handler := Inserting(s.rows[id].market)) else s
    case Insert => if s.handler.Inserting? then s.(dedup := s.dedup + {s.handler.market}, handler := Resting) else s
    case Promote(id) =>
      if id in s.rows && s.rows[id].state.EntryFailed? && s.rows[id].hidden then SetState(s, id, ExitFailed) else s
    case Demote(id) => if id in s.rows && s.rows[id].state.ExitFailed? then SetState(s, id, EntryFailed) else s
    case Restart(stale, answered) => Restarted(s, stale, answered)
  }

  function Run(s: Sys, steps: seq<Step>): Sys
    decreases |steps|
  {
    if steps == [] then s else Run(Next(s, steps[0]), steps[1..])
  }

  // ── Safety ────────────────────────────────────────────────────────────

  ghost predicate AtMostOneLive(s: Sys) {
    forall i, j ::
      (i in s.rows && j in s.rows && Live(s.rows[i]) && Live(s.rows[j]) && s.rows[i].market == s.rows[j].market)
      ==> i == j
  }

  /** No row of this market other than `except` is live. */
  ghost predicate Vacant(s: Sys, m: string, except: set<nat>) {
    forall i :: i in s.rows && i !in except && s.rows[i].market == m ==> !Live(s.rows[i])
  }

  /** The executor's market is vacant, untracked and not about to be removed while it works on it. */
  ghost predicate ExecutorOk(s: Sys) {
    match s.exec
    case Idle => true
    case Checked(m) => m !in s.dedup && Vacant(s, m, {}) && s.handler != Removing(m)
    case Created(id) =>
      && id in s.rows && s.rows[id].state.Pending?
      && s.rows[id].market !in s.dedup && Vacant(s, s.rows[id].market, {})
      && s.handler != Removing(s.rows[id].market)
    case Opened(id) =>
      && id in s.rows && (Live(s.rows[id]) || s.rows[id].state in {Closed, EntryFailed})
      && s.rows[id].market !in s.dedup && Vacant(s, s.rows[id].market, {id})
  }

  ghost predicate HandlerOk(s: Sys) {
    match s.handler
    case Resting => true
    case Inserting(_) => false
    case Removing(m) =>
      Vacant(s, m, {}) && (m in s.dedup || (s.exec.Opened? && s.exec.id in s.rows && s.rows[s.exec.id].market == m))
  }

  ghost predicate Inv(s: Sys) {
    && AtMostOneLive(s)
    && (forall i :: i in s.rows && Live(s.rows[i]) ==> s.rows[i].market in s.dedup || s.exec == Opened(i))
    && (forall i :: i in s.rows ==> !s.rows[i].hidden)
    && ExecutorOk(s) && HandlerOk(s)
  }

  lemma CreateKeepsInv(s: Sys, id: nat)
    requires Inv(s)
    ensures Inv(Next(s, Create(id)))
  {
  }

  lemma FillKeepsInv(s: Sys, oneLegged: bool)
    requires Inv(s)
    ensures Inv(Next(s, EntryFills(oneLegged)))
  {
  }

  lemma EntryFailureKeepsInv(s: Sys)
    requires Inv(s)
    ensures Inv(Next(s, EntryFails))
  {
  }

  lemma CloseKeepsInv(s: Sys, id: nat)
    requires Inv(s)
    ensures Inv(Next(s, CloseRow(id)))
  {
  }

  lemma MoveKeepsInv(s: Sys, id: nat, to: State)
    requires Inv(s)
    ensures Inv(Next(s, Move(id, to)))
  {
  }

  lemma DemoteKeepsInv(s: Sys, id: nat)
    requires Inv(s)
    ensures Inv(Next(s, Demote(id)))
  {
  }

  lemma RestartKeepsInv(s: Sys, stale: set<nat>)
    requires Inv(s)
    ensures Inv(Next(s, Restart(stale, true)))
  {
    var s' := Next(s, Restart(stale, true));
    forall i | i in s'.rows && Live(s'.rows[i]) ensures s'.rows[i].market in s'.dedup && s'.rows[i] == s.rows[i] {}
  }

  predicate Blind(step: Step) { step.Restart? && !step.answered }

  lemma StepKeepsInv(s: Sys, step: Step)
    requires Inv(s) && !Blind(step)
    ensures Inv(Next(s, step))
  {
    match step
    case Create(id) => CreateKeepsInv(s, id);
    case EntryFails => EntryFailureKeepsInv(s);
    case EntryFills(oneLegged) => FillKeepsInv(s, oneLegged);
    case CloseRow(id) => CloseKeepsInv(s, id);
    case Move(id, to) => MoveKeepsInv(s, id, to);
    case Demote(id) => DemoteKeepsInv(s, id);
    case Restart(stale, _) => RestartKeepsInv(s, stale);
    case _ =>
  }

  /** Restarts whose query for the active rows fails occur only if allowed. */
  ghost predicate Permitted(steps: seq<Step>, blind: bool) {
    forall i :: 0 <= i < |steps| && Blind(steps[i]) ==> blind
  }

  /** In every run without hidden rows and blind restarts there is at most one live arb position per market. */
  lemma {:induction false} OneLivePositionPerMarket(s: Sys, steps: seq<Step>)
    requires Inv(s) && Permitted(steps, false)
    ensures Inv(Run(s, steps)) && AtMostOneLive(Run(s, steps))
    decreases |steps|
  {
    if steps != [] {
      StepKeepsInv(s, steps[0]);
      OneLivePositionPerMarket(Next(s, steps[0]), steps[1..]);
    }
  }

  // ── Exactly when it holds: hidden one-legged rows, blind restarts ─────

  /** Both tasks at rest, live rows tracked, and the one-legged flag only on EntryFailed rows. */
  ghost predicate Quiet(s: Sys) {
    && s.exec.Idle? && s.handler.Resting?
    && AtMostOneLive(s)
    && (forall i :: i in s.rows && Live(s.rows[i]) ==> s.rows[i].market in s.dedup)
    && (forall i :: i in s.rows ==> !s.rows[i].state.Stalled? && (s.rows[i].hidden ==> s.rows[i].state.EntryFailed?))
  }

  lemma RunPrefix(s: Sys, step: Step, rest: seq<Step>)
    ensures Run(s, [step] + rest) == Run(Next(s, step), rest)
  {
    assert ([step] + rest)[1..] == rest;
  }

  function Six(a: Step, b: Step, c: Step, d: Step, e: Step, f: Step): seq<Step> {
    [a] + ([b] + ([c] + ([d] + ([e] + ([f] + [])))))
  }

  lemma RunSix(s: Sys, a: Step, b: Step, c: Step, d: Step, e: Step, f: Step)
    ensures Run(s, Six(a, b, c, d, e, f)) == Next(Next(Next(Next(Next(Next(s, a), b), c), d), e), f)
  {
    var s1, s2, s3 := Next(s, a), Next(Next(s, a), b), Next(Next(Next(s, a), b), c);
    var s4 := Next(s3, d);
    RunPrefix(s, a, [b] + ([c] + ([d] + ([e] + ([f] + [])))));
    RunPrefix(s1, b, [c] + ([d] + ([e] + ([f] + []))));
    RunPrefix(s2, c, [d] + ([e] + ([f] + [])));
    RunPrefix(s3, d, [e] + ([f] + []));
    RunPrefix(s4, e, [f] + []);
    RunPrefix(Next(s4, e), f, []);
  }

  /** A restart that fails every Pending row leaves a vacant market untracked. */
  lemma RestartForgets(s: Sys, m: string)
    requires Quiet(s) && Vacant(s, m, {})
    ensures m !in Next(s, Restart(s.rows.Keys, true)).dedup
  {
  }

  function RivalRun(s: Sys, hidden: nat, fresh': nat): seq<Step>
    requires hidden in s.rows
  {
    Six(Restart(s.rows.Keys, true), Signal(s.rows[hidden].market), Create(fresh'), EntryFills(false), Track, Promote(hidden))
  }

  /** After a restart the executor opens a second position next to the hidden one, which is then promoted. */
  lemma RivalRunCollides(s: Sys, hidden: nat, fresh': nat)
    requires Quiet(s) && hidden in s.rows && s.rows[hidden].hidden && fresh' !in s.rows
    requires Vacant(s, s.rows[hidden].market, {})
    ensures !AtMostOneLive(Run(s, RivalRun(s, hidden, fresh')))
  {
    var m := s.rows[hidden].market;
    RestartForgets(s, m);
    RunSix(s, Restart(s.rows.Keys, true), Signal(m), Create(fresh'), EntryFills(false), Track, Promote(hidden));
    EntryNextToHidden(Next(s, Restart(s.rows.Keys, true)), hidden, fresh');
  }

  lemma EntryNextToHidden(s: Sys, hidden: nat, fresh': nat)
    requires s.exec.Idle? && hidden in s.rows && fresh' !in s.rows
    requires s.rows[hidden].hidden && s.rows[hidden].state.EntryFailed? && s.rows[hidden].market !in s.dedup
    ensures var entered := Next(Next(Next(Next(s, Signal(s.rows[hidden].market)), Create(fresh')), EntryFills(false)), Track);
      !AtMostOneLive(Next(entered, Promote(hidden)))
  {
    var m := s.rows[hidden].market;
    var s3 := Next(Next(Next(s, Signal(m)), Create(fresh')), EntryFills(false));
    assert s3.rows == s.rows[fresh' := Arb(m, Open, false)];
    var s5 := Next(Next(s3, Track), Promote(hidden));
    assert s5.rows[fresh'] == Arb(m, Open, false) && s5.rows[hidden] == Arb(m, ExitFailed, true);
  }

  // Two entries into one market, each right after a blind restart.

  function BlindEntry(m: string, id: nat): seq<Step> {
    Six(Restart({}, false), Signal(m), Create(id), EntryFills(false), Track, Skip)
  }

  lemma BlindEntryOpens(s: Sys, m: string, id: nat)
    requires id !in s.rows
    ensures var s' := Run(s, BlindEntry(m, id));
      && s'.rows == s.rows[id := Arb(m, Open, false)] && s'.exec.Idle?
  {
    RunSix(s, Restart({}, false), Signal(m), Create(id), EntryFills(false), Track, Skip);
    var s1 := Next(s, Restart({}, false));
    assert s1.rows == s.rows;
    EntryOpens(s1, m, id);
  }

  lemma {:induction false} RunConcat(s: Sys, a: seq<Step>, b: seq<Step>)
    ensures Run(s, a + b) == Run(Run(s, a), b)
    decreases |a|
  {
    if a == [] {
      assert a + b == b;
    } else {
      assert (a + b)[1..] == a[1..] + b;
      RunConcat(Next(s, a[0]), a[1..], b);
    }
  }

  /** Two blind restarts are enough, from any state and for any market. */
  lemma BlindRestartsCollide(s: Sys, m: string, first: nat, second: nat)
    requires first !in s.rows && second !in s.rows && first != second
    ensures !AtMostOneLive(Run(s, BlindEntry(m, first) + BlindEntry(m, second)))
  {
    BlindEntryOpens(s, m, first);
    var s1 := Run(s, BlindEntry(m, first));
    BlindEntryOpens(s1, m, second);
    RunConcat(s, BlindEntry(m, first), BlindEntry(m, second));
    var s2 := Run(s1, BlindEntry(m, second));
    assert s2.rows[first] == Arb(m, Open, false) && s2.rows[second] == Arb(m, Open, false);
  }

  ghost predicate OneLiveInEveryRun(s: Sys, blind: bool) {
    forall steps: seq<Step> :: Permitted(steps, blind) ==> AtMostOneLive(Run(s, steps))
  }

  predicate NoHiddenRow(s: Sys) { forall i :: i in s.rows ==> !s.rows[i].hidden }

  lemma HiddenRowCollides(s: Sys, h: nat, fresh': nat)
    requires Quiet(s) && fresh' !in s.rows && h in s.rows && s.rows[h].hidden
    ensures !OneLiveInEveryRun(s, false)
  {
    if Vacant(s, s.rows[h].market, {}) {
      RivalRunCollides(s, h, fresh');
      assert Permitted(RivalRun(s, h, fresh'), false);
    } else {
      var rival :| rival in s.rows && s.rows[rival].market == s.rows[h].market && Live(s.rows[rival]);
      RunPrefix(s, Promote(h), []);
      var s' := Next(s, Promote(h));
      assert Live(s'.rows[h]) && Live(s'.rows[rival]) && h != rival;
      assert Permitted([Promote(h)] + [], false) && !AtMostOneLive(Run(s, [Promote(h)] + []));
    }
  }

  /**
   From a quiet state the property holds in every run exactly when no hidden one-legged row is stored and the
   start-up query for the active rows is always answered.
   */
  lemma OneLiveExact(s: Sys, blind: bool, first: nat, second: nat)
    requires Quiet(s) && first !in s.rows && second !in s.rows && first != second
    ensures OneLiveInEveryRun(s, blind) <==> NoHiddenRow(s) && !blind
  {
    if blind {
      BlindRestartsCollide(s, "", first, second);
      assert Permitted(BlindEntry("", first) + BlindEntry("", second), true);
    } else if !NoHiddenRow(s) {
      var h :| h in s.rows && s.rows[h].hidden;
      HiddenRowCollides(s, h, first);
    } else {
      forall steps: seq<Step> | Permitted(steps, blind) ensures AtMostOneLive(Run(s, steps)) {
        OneLivePositionPerMarket(s, steps);
      }
    }
  }

  /** A failed first order leaves nothing behind: the row is over and the market is free for the next signal. */
  lemma FailedEntryFreesMarket(s: Sys)
    requires Inv(s) && s.exec.Created?
    ensures var s', m := Next(s, EntryFails), s.rows[s.exec.id].market;
      && s'.rows[s.exec.id].state == EntryFailed && !Live(s'.rows[s.exec.id])
      && m !in s'.dedup && Next(s', Signal(m)).exec == Checked(m)
  {
  }

  /** A skipped signal leaves the executor as it was; a live position follows its exit, whatever the executor does. */
  lemma SkipAndMoveLaw(s: Sys, m: string, id: nat, to: State)
    ensures s.exec.Idle? && m !in s.dedup ==> Next(Next(s, Signal(m)), Skip) == s
    ensures s.exec.Idle? && m in s.dedup ==> Next(s, Signal(m)) == s
    ensures id in s.rows && Live(s.rows[id]) && to in {Open, ExitReady, Closing, ExitFailed} ==>
      Next(s, Move(id, to)) == s.(rows := s.rows[id := s.rows[id].(state := to)])
  {
  }

  /** The handler's recovery of a hidden row makes it live and then tracks its market. */
  lemma HiddenRecoveryTracks(s: Sys, id: nat)
    requires s.handler.Resting? && id in s.rows && s.rows[id].hidden && s.rows[id].state.EntryFailed?
    ensures var s' := Next(Next(s, RecoverHidden(id)), Insert);
      && s'.rows[id].state == ExitReady && s.rows[id].market in s'.dedup && s'.handler == Resting
  {
  }

  /** A close is remembered until its market has left the set, and then the handler is free again. */
  lemma CloseThenRemove(s: Sys, id: nat)
    requires s.handler.Resting? && id in s.rows && Live(s.rows[id])
    ensures var s' := Next(Next(s, CloseRow(id)), Remove);
      && s'.rows[id].state == Closed && s.rows[id].market !in s'.dedup && s'.handler == Resting
      && s'.dedup == s.dedup - {s.rows[id].market}
  {
  }

  // ── A market can be locked out ────────────────────────────────────────

  /** Tracked although nothing in it is live and neither task is working on it. */
  ghost predicate LockedOut(s: Sys, m: string) {
    && m in s.dedup && Vacant(s, m, {}) && s.handler != Removing(m)
    && match s.exec {
         case Idle => true
         case Checked(m') => m' != m
         case Created(id) => id in s.rows ==> s.rows[id].market != m
         case Opened(id) => id in s.rows ==> s.rows[id].market != m
       }
  }

  /** What the exact theorem needs, and what every step keeps: blind restarts and demotions included. */
  ghost predicate Sound(s: Sys) {
    && NoHiddenRow(s) && !s.handler.Inserting?
    && match s.exec {
         case Idle => true
         case Checked(m) => m !in s.dedup
         case Created(id) => id in s.rows && s.rows[id].market !in s.dedup
         case Opened(id) => id in s.rows && s.rows[id].market !in s.dedup
       }
  }

  lemma StepKeepsSound(s: Sys, step: Step)
    requires Sound(s)
    ensures Sound(Next(s, step))
  {
  }

  /** A market that a restart puts back into the set with nothing live: a Pending row not yet failed, or a Stalled one. */
  ghost predicate RestartLocks(s: Sys, stale: set<nat>, m: string) {
    && Vacant(s, m, {})
    && exists id :: id in s.rows && s.rows[id].market == m && Lingers(s.rows[id], id in stale)
  }

  predicate Lingers(a: Arb, stale: bool) { (a.state.Pending? && !stale) || a.state.Stalled? }

  /** The executor inserts a market in which nothing is live any more, and whose removal is already over. */
  ghost predicate TrackLocks(s: Sys, m: string) {
    && s.exec.Opened? && s.exec.id in s.rows && s.rows[s.exec.id].market == m
    && Vacant(s, m, {}) && s.handler != Removing(m)
  }

  /** The reconciler demotes the only live row of a tracked market: nobody will remove the market. */
  ghost predicate DemoteLocks(s: Sys, id: nat, m: string) {
    && id in s.rows && s.rows[id].state.ExitFailed? && s.rows[id].market == m
    && m in s.dedup && Vacant(s, m, {id}) && s.handler != Removing(m)
  }

  lemma RestartExact(s: Sys, stale: set<nat>, answered: bool, m: string)
    ensures LockedOut(Next(s, Restart(stale, answered)), m) <==> answered && RestartLocks(s, stale, m)
  {
    var s' := Next(s, Restart(stale, answered));
    if answered && RestartLocks(s, stale, m) {
      var id :| id in s.rows && s.rows[id].market == m && Lingers(s.rows[id], id in stale);
      assert s'.rows[id] == s.rows[id];
      assert m in ActiveMarkets(s'.rows);
      forall i | i in s'.rows && s'.rows[i].market == m ensures !Live(s'.rows[i]) {
        assert !Live(s.rows[i]);
      }
    }
    if LockedOut(s', m) {
      var id :| id in s'.rows && !s'.rows[id].state.Closed? && !s'.rows[id].state.EntryFailed? && s'.rows[id].market == m;
      forall i | i in s.rows && s.rows[i].market == m ensures !Live(s.rows[i]) {
        assert !Live(s'.rows[i]);
      }
      assert Lingers(s.rows[id], id in stale);
    }
  }

  lemma DemoteExact(s: Sys, id: nat, m: string)
    requires Sound(s)
    ensures LockedOut(Next(s, Demote(id)), m) <==> LockedOut(s, m) || DemoteLocks(s, id, m)
  {
    if id in s.rows && s.rows[id].state.ExitFailed? {
      var s' := Next(s, Demote(id));
      assert s'.rows == s.rows[id := s.rows[id].(state := EntryFailed)];
      if s.rows[id].market == m {
        assert Live(s.rows[id]);
        assert Vacant(s', m, {}) <==> Vacant(s, m, {id});
      } else {
        assert Vacant(s', m, {}) <==> Vacant(s, m, {});
      }
    }
  }

  /** Exactly what locks a market out and what frees it, for every step. */
  lemma LockOutExact(s: Sys, step: Step, m: string)
    requires Sound(s)
    ensures LockedOut(Next(s, step), m) <==>
      match step
      case Restart(stale, answered) => answered && RestartLocks(s, stale, m)
      case Track => LockedOut(s, m) || TrackLocks(s, m)
      case Demote(id) => LockedOut(s, m) || DemoteLocks(s, id, m)
      case _ => LockedOut(s, m)
  {
    match step
    case Restart(stale, answered) => RestartExact(s, stale, answered, m);
    case Demote(id) => DemoteExact(s, id, m);
    case _ =>
  }

  /** Step `i` of a run locks the market out. */
  ghost predicate LocksAt(s: Sys, steps: seq<Step>, i: nat, m: string)
    requires i < |steps|
  {
    match steps[i]
    case Restart(stale, answered) => answered && RestartLocks(Run(s, steps[..i]), stale, m)
    case Track => TrackLocks(Run(s, steps[..i]), m)
    case Demote(id) => DemoteLocks(Run(s, steps[..i]), id, m)
    case _ => false
  }

  ghost predicate NoRestart(steps: seq<Step>, from: nat, to: nat)
    requires to <= |steps|
  {
    forall j :: from <= j < to ==> !steps[j].Restart?
  }

  lemma {:induction false} RunAppend(s: Sys, steps: seq<Step>, step: Step)
    ensures Run(s, steps + [step]) == Next(Run(s, steps), step)
    decreases |steps|
  {
    if steps == [] {
      assert [] + [step] == [step] + [];
      RunPrefix(s, step, []);
    } else {
      assert (steps + [step])[1..] == steps[1..] + [step];
      RunAppend(Next(s, steps[0]), steps[1..], step);
    }
  }

  /** Over every run: a market is locked out exactly when some step locked it out and no restart came after it. */
  lemma {:induction false} LockOutOverRuns(s: Sys, steps: seq<Step>, n: nat, m: string)
    requires Sound(s) && n <= |steps|
    ensures Sound(Run(s, steps[..n]))
    ensures LockedOut(Run(s, steps[..n]), m) <==>
      || (LockedOut(s, m) && NoRestart(steps, 0, n))
      || exists i: nat :: i < n && LocksAt(s, steps, i, m) && NoRestart(steps, i + 1, n)
  {
    if n > 0 {
      var last := n - 1;
      LockOutOverRuns(s, steps, last, m);
      assert steps[..n] == steps[..last] + [steps[last]];
      RunAppend(s, steps[..last], steps[last]);
      StepKeepsSound(Run(s, steps[..last]), steps[last]);
      LockOutExact(Run(s, steps[..last]), steps[last], m);
      if i: nat :| i < n && LocksAt(s, steps, i, m) && NoRestart(steps, i + 1, n) {
        assert i < last ==> NoRestart(steps, i + 1, last);
      }
      if LocksAt(s, steps, last, m) {
        assert NoRestart(steps, last + 1, n);
      }
    }
  }

  /** Short of a restart, no run ever frees such a market. */
  lemma LockOutIsPermanent(s: Sys, steps: seq<Step>, m: string)
    requires Sound(s) && LockedOut(s, m)
    requires forall i :: 0 <= i < |steps| ==> !steps[i].Restart?
    ensures LockedOut(Run(s, steps), m)
  {
    LockOutOverRuns(s, steps, |steps|, m);
    assert steps[..|steps|] == steps;
  }

  /** A locked-out market gets no new position: whoever creates one has found the market untracked. */
  lemma LockedOutMeansNoEntry(s: Sys, step: Step, m: string, id: nat)
    requires Sound(s) && LockedOut(s, m)
    requires id in Next(s, step).rows && Next(s, step).rows[id].market == m
    ensures id in s.rows && !Live(Next(s, step).rows[id])
  {
  }

  lemma EntryOpens(s: Sys, m: string, id: nat)
    requires s.exec.Idle? && m !in s.dedup && id !in s.rows
    ensures Next(Next(Next(s, Signal(m)), Create(id)), EntryFills(false))
      == s.(rows := s.rows[id := Arb(m, Open, false)], exec := Opened(id))
  {
    var s2 := Next(Next(s, Signal(m)), Create(id));
    assert s2 == s.(rows := s.rows[id := Arb(m, Pending, false)], exec := Created(id));
    assert s.rows[id := Arb(m, Pending, false)][id := Arb(m, Open, false)] == s.rows[id := Arb(m, Open, false)];
  }

  /** A close that lands between the executor's last write and its insert leaves the market locked out. */
  lemma LockOutIsReachable(s: Sys, m: string, id: nat)
    requires Inv(s) && s.exec.Idle? && s.handler.Resting? && m !in s.dedup && id !in s.rows
    ensures LockedOut(Run(s, Six(Signal(m), Create(id), EntryFills(false), CloseRow(id), Remove, Track)), m)
  {
    RunSix(s, Signal(m), Create(id), EntryFills(false), CloseRow(id), Remove, Track);
    EntryOpens(s, m, id);
    var s3 := s.(rows := s.rows[id := Arb(m, Open, false)], exec := Opened(id));
    var s4 := Next(s3, CloseRow(id));
    assert s4 == Sys(s3.rows[id := Arb(m, Closed, false)], s.dedup, Opened(id), Removing(m));
  }

  /** A crash between the insert of the row and its fill does the same: the next start reloads the Pending row. */
  lemma CrashDuringEntryLocksOut(s: Sys, m: string, id: nat)
    requires Inv(s) && s.exec.Idle? && m !in s.dedup && id !in s.rows
    ensures LockedOut(Next(Next(Next(s, Signal(m)), Create(id)), Restart({}, true)), m)
  {
    var s2 := Next(Next(s, Signal(m)), Create(id));
    StepKeepsInv(s, Signal(m));
    StepKeepsInv(Next(s, Signal(m)), Create(id));
    assert s2.rows[id] == Arb(m, Pending, false) && Lingers(s2.rows[id], id in {});
    RestartExact(s2, {}, true, m);
  }

  /** So does a demotion: with both tasks at rest, every failed exit that is demoted locks its market out. */
  lemma DemotionLocksOut(s: Sys, id: nat)
    requires Inv(s) && s.exec.Idle? && s.handler.Resting? && id in s.rows && s.rows[id].state.ExitFailed?
    ensures !LockedOut(s, s.rows[id].market) && LockedOut(Next(s, Demote(id)), s.rows[id].market)
  {
    assert Live(s.rows[id]);
    DemoteExact(s, id, s.rows[id].market);
  }
}
