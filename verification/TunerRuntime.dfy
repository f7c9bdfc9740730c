/**
 The tuner's table, the pub/sub channel, and the executor settings the subscriber mirrors from it.

 Messages arrive in order.  A reconnect loses whatever was queued, loads the bounds and takes one snapshot of
 the table per executor, and each of these three queries may fail; changing a row and publishing (or reverting)
 it is one step, and the bounds of a row do not change.
 */
module TunerRuntime {
  import opened Positions
  import opened Tuner

  datatype Key =
    | MinProfitThreshold | MaxMarkets | ExplorationSlots | Aggressiveness
    | PositionSize | MinNetProfit | MinBookDepth | MaxSignalAge | QuantBaseSize
    | Unsupported(name: string)

  /** The settings that live in the two executors' configs. */
  predicate Mirrored(key: Key) { key in {PositionSize, MinNetProfit, MinBookDepth, MaxSignalAge, QuantBaseSize} }

  function FallbackBounds(key: Key): Option<(real, real)> {
    match key
    case MinProfitThreshold => Some((0.002, 0.005))
    case MaxMarkets => Some((25.0, 1500.0))
    case ExplorationSlots => Some((1.0, 500.0))
    case Aggressiveness => Some((0.0, 2.0))
    case PositionSize => Some((5.0, 25.0))
    case MinNetProfit => Some((0.0005, 0.05))
    case MinBookDepth => Some((10.0, 200.0))
    case MaxSignalAge => Some((5.0, 300.0))
    case QuantBaseSize => Some((10.0, 200.0))
    case Unsupported(_) => None
  }

  /** to_i64: towards zero. */
  function Truncated(x: real): real { if x < 0.0 then -((-x).Floor as real) else x.Floor as real }

  /** The signal age is stored as whole seconds, everything else as is. */
  function Mirror(key: Key, value: real): real { if key.MaxSignalAge? then Truncated(value) else value }

  datatype Source = FromTuner | FromRollback | FromSync | FromManual | Unknown(name: string)

  predicate SourceAllowed(source: Source) { !source.Unknown? }

  datatype Message = Message(key: Key, value: real, source: Source)

  type Bounds = map<Key, (real, real)>
  type Settings = map<Key, real>
  type Table = map<Key, ConfigRow>

  // ── The tables of bounds ──────────────────────────────────────────────

  /** The seeds of the tuner: configured default, bounds and step of every key it knows. */
  function SeedOf(key: Key, configured: real): Option<Seed> {
    match key
    case MinProfitThreshold => Some(Seed(configured, 0.002, 0.005, 0.12))
    case MaxMarkets => Some(Seed(configured, 25.0, 1500.0, 0.15))
    case ExplorationSlots => Some(Seed(configured, 1.0, 500.0, 0.25))
    case Aggressiveness => Some(Seed(configured, 0.0, 2.0, 1.0))
    case PositionSize => Some(Seed(configured, 5.0, 25.0, 0.2))
    case MinNetProfit => Some(Seed(configured, 0.0005, 0.05, 0.15))
    case MinBookDepth => Some(Seed(configured, 10.0, 200.0, 0.2))
    case MaxSignalAge => Some(Seed(configured, 5.0, 300.0, 0.25))
    case QuantBaseSize => Some(Seed(configured, 10.0, 200.0, 0.15))
    case Unsupported(_) => None
  }

  /** The bounds and steps of the two workspace forms. */
  function FormBounds(key: Key): Option<(real, real, real)> {
    match key
    case MaxMarkets => Some((25.0, 1500.0, 0.15))
    case ExplorationSlots => Some((1.0, 500.0, 0.25))
    case Aggressiveness => Some((0.0, 2.0, 1.0))
    case PositionSize => Some((5.0, 25.0, 0.2))
    case MinNetProfit => Some((0.0005, 0.05, 0.15))
    case MinBookDepth => Some((10.0, 200.0, 0.2))
    case MaxSignalAge => Some((5.0, 300.0, 0.25))
    case _ => None
  }

  /** The three tables agree: seeds, built-in bounds and forms never move a seeded row's bounds apart. */
  lemma TablesAgree(key: Key, configured: real)
    ensures SeedOf(key, configured).Some? <==> FallbackBounds(key).Some?
    ensures SeedOf(key, configured).Some? ==>
      var seed := SeedOf(key, configured).value;
      FallbackBounds(key).value == (seed.min, seed.max) && seed.min < seed.max && seed.default == configured
    ensures FormBounds(key).Some? ==>
      SeedOf(key, configured).Some?
      && FormBounds(key).value
         == (SeedOf(key, configured).value.min, SeedOf(key, configured).value.max, SeedOf(key, configured).value.stepPct)
  {
  }

  // ── The subscriber ────────────────────────────────────────────────────

  function BoundsOf(key: Key, bounds: Bounds): Option<(real, real)> {
    if key in bounds then Some(bounds[key]) else FallbackBounds(key)
  }

  function ClampDynamic(key: Key, value: real, bounds: Bounds): Option<real> {
    var b := BoundsOf(key, bounds);
    if b.None? then None else Some(Clamp(value, b.value.0, b.value.1))
  }

  function Deliver(settings: Settings, bounds: Bounds, m: Message): Settings {
    var value := ClampDynamic(m.key, m.value, bounds);
    if !SourceAllowed(m.source) || value.None? || !Mirrored(m.key) then settings
    else settings[m.key := Mirror(m.key, value.value)]
  }

  /** The settings once everything queued has been delivered. */
  function Drained(settings: Settings, bounds: Bounds, queue: seq<Message>): Settings {
    if queue == [] then settings
    else Deliver(Drained(settings, bounds, queue[..|queue| - 1]), bounds, queue[|queue| - 1])
  }

  /** Without an answer every key has its built-in bounds. */
  function LoadedBounds(rows: Table, answered: bool): Bounds {
    map k | k in rows && rows[k].enabled && answered :: (rows[k].min, rows[k].max)
  }

  /** Which of the queries of a connection answered; a failed one is only logged. */
  datatype Answers = Answers(bounds: bool, arb: bool, quant: bool) {
    predicate Snapshots(k: Key) { if k.QuantBaseSize? then quant else arb }
    predicate All() { bounds && arb && quant }
  }

  /** The startup snapshots: enabled rows overwrite the settings, the others are left alone. */
  function Snapshot(settings: Settings, bounds: Bounds, rows: Table, answers: Answers): Settings {
    map k | k in settings.Keys + rows.Keys && (k in settings || (answers.Snapshots(k) && Applies(k, rows, bounds))) ::
      if answers.Snapshots(k) && Applies(k, rows, bounds) then Mirror(k, ClampDynamic(k, rows[k].current, bounds).value)
      else settings[k]
  }

  predicate Applies(k: Key, rows: Table, bounds: Bounds) {
    k in rows && rows[k].enabled && Mirrored(k) && BoundsOf(k, bounds).Some?
  }

  class Subscriber {
    var settings: Settings
    const bounds: Bounds

    constructor (settings: Settings, bounds: Bounds)
      ensures this.settings == settings && this.bounds == bounds
    {
      this.settings, this.bounds := settings, bounds;
    }

    /** The receive loop over the messages of one connection. */
    method Receive(queue: seq<Message>)
      modifies this
      ensures settings == Drained(old(settings), bounds, queue)
    {
      for i := 0 to |queue|
        invariant settings == Drained(old(settings), bounds, queue[..i])
      {
        assert queue[..i + 1][..i] == queue[..i];
        var update := queue[i];
        if !SourceAllowed(update.source) {
          continue;
        }
        var validated := ClampDynamic(update.key, update.value, bounds);
        if validated.None? {
          continue;
        }
        update := update.(value := validated.value);
        if Mirrored(update.key) {
          settings := settings[update.key := Mirror(update.key, update.value)];
        }
      }
      assert queue[..|queue|] == queue;
    }
  }

  // ── The tuner's side ──────────────────────────────────────────────────

  /** `stale` records the keys whose value may have changed with no message or snapshot since. */
  datatype Store = Store(rows: Table, channel: seq<Message>, stale: set<Key>)

  function Written(s: Store, key: Key, row: ConfigRow, source: Source, published: bool): Store
    requires key in s.rows
  {
    if published
    then Store(s.rows[key := row], s.channel + [Message(key, row.current, source)], s.stale - {key})
    else Store(s.rows[key := row], s.channel, if row.current == s.rows[key].current then s.stale else s.stale + {key})
  }

  function TuneKey(s: Store, key: Key, target: real, now: int, metrics: Metrics, fate: Fate): Store {
    if key !in s.rows || Proposal(s.rows[key], target).None? then s
    else Written(s, key, Tuned(s.rows[key], target, now, metrics, fate), FromTuner, fate.Published?)
  }

  function EvaluateKey(s: Store, key: Key, now: int, metrics: Metrics, tolerance: Tolerance, published: bool): Store {
    if key !in s.rows || !Due(s.rows[key], now, tolerance) then s
    else
      Written(s, key, Evaluated(s.rows[key], now, metrics, tolerance), FromRollback,
        published && Degraded(s.rows[key], metrics, tolerance))
  }

  /** Each key with how its publish, if any, turns out. */
  function EvaluateAll(s: Store, keys: seq<(Key, bool)>, now: int, metrics: Metrics, tolerance: Tolerance): Store {
    if keys == [] then s
    else
      var last := |keys| - 1;
      EvaluateKey(EvaluateAll(s, keys[..last], now, metrics, tolerance), keys[last].0, now, metrics, tolerance, keys[last].1)
  }

  /** A database error ends the cycle. */
  function TuneAll(s: Store, targets: seq<(Key, real, Fate)>, now: int, metrics: Metrics): Store
    decreases |targets|
  {
    if targets == [] then s
    else
      var (key, target, fate) := targets[0];
      var s' := TuneKey(s, key, target, now, metrics, fate);
      if s' != s && fate.Interrupted? then s' else TuneAll(s', targets[1..], now, metrics)
  }

  /** What a tuned key puts on the channel: its new value if it changed and was published, nothing otherwise. */
  lemma TuningTells(s: Store, key: Key, target: real, now: int, metrics: Metrics, fate: Fate)
    requires key in s.rows
    ensures var s' := TuneKey(s, key, target, now, metrics, fate);
      && (fate == Published && s'.rows[key] != s.rows[key] ==>
            s'.channel == s.channel + [Message(key, s'.rows[key].current, FromTuner)])
      && (fate != Published || s'.rows[key] == s.rows[key] ==> s'.channel == s.channel)
      && (forall k :: k in s.rows && k != key ==> s'.rows[k] == s.rows[k])
  {
  }

  /** What an evaluated key puts on the channel: its last good value if it was rolled back and published, else nothing. */
  lemma EvaluationTells(s: Store, key: Key, now: int, metrics: Metrics, tolerance: Tolerance, published: bool)
    requires key in s.rows
    ensures var s', r := EvaluateKey(s, key, now, metrics, tolerance, published), s.rows[key];
      && (published && Due(r, now, tolerance) && Degraded(r, metrics, tolerance) ==>
            s'.channel == s.channel + [Message(key, r.lastGood, FromRollback)])
      && (!published || !Due(r, now, tolerance) || !Degraded(r, metrics, tolerance) ==> s'.channel == s.channel)
      && (forall k :: k in s.rows && k != key ==> s'.rows[k] == s.rows[k])
  {
  }

  /** A database error ends the pass: whatever comes after an interrupted change is not touched. */
  lemma InterruptionEndsThePass(s: Store, key: Key, target: real, rest: seq<(Key, real, Fate)>, now: int, metrics: Metrics)
    requires TuneKey(s, key, target, now, metrics, Interrupted) != s
    ensures TuneAll(s, [(key, target, Interrupted)] + rest, now, metrics) == TuneKey(s, key, target, now, metrics, Interrupted)
  {
  }

  class DynamicTuner {
    var rows: Table
    var channel: seq<Message>
    ghost var stale: set<Key>

    ghost function Value(): (s: Store)
      reads this
    {
      Store(rows, channel, stale)
    }

    method Publish(key: Key, value: real, source: Source)
      requires key in rows && rows[key].current == value
      modifies this
      ensures rows == old(rows) && channel == old(channel) + [Message(key, value, source)]
      ensures stale == old(stale) - {key}
    {
      channel := channel + [Message(key, value, source)];
      stale := stale - {key};
    }

    method Update(key: Key, row: ConfigRow)
      requires key in rows
      modifies this
      ensures Value() == Written(old(Value()), key, row, FromTuner, false)
    {
      stale := if row.current == rows[key].current then stale else stale + {key};
      rows := rows[key := row];
    }

    /** evaluate_pending: the rows the cycle has loaded that are pending and due, each kept or rolled back. */
    method EvaluatePending(loaded: Table, keys: seq<(Key, bool)>, now: int, metrics: Metrics, tolerance: Tolerance)
      requires loaded == rows
      requires forall i, j :: 0 <= i < j < |keys| ==> keys[i].0 != keys[j].0
      modifies this
      ensures Value() == EvaluateAll(old(Value()), keys, now, metrics, tolerance)
    {
      for i := 0 to |keys|
        invariant Value() == EvaluateAll(old(Value()), keys[..i], now, metrics, tolerance)
        invariant rows.Keys == loaded.Keys
        invariant forall j :: i <= j < |keys| && keys[j].0 in loaded ==> rows[keys[j].0] == loaded[keys[j].0]
      {
        assert keys[..i + 1][..i] == keys[..i];
        var (key, publishes) := keys[i];
        if key !in loaded || !loaded[key].pending || loaded[key].lastApplied.None? {
          continue;
        }
        var row := loaded[key];
        if Minutes(now - row.lastApplied.value) < tolerance.delayMinutes {
          continue;
        }
        var baseline := if row.baseline.Some? then row.baseline.value else Metrics(0.0, 0.0);
        var fillDegraded := metrics.fillRate + tolerance.fillRate < baseline.fillRate;
        var pnlDegraded := metrics.pnl < baseline.pnl - tolerance.pnl;
        if fillDegraded || pnlDegraded {
          Update(key, RolledBack(rows[key], row));
          if publishes {
            Publish(key, row.lastGood, FromRollback);
          }
        } else {
          Update(key, Accepted(rows[key]));
        }
      }
      assert keys[..|keys|] == keys;
    }

    /** The tuning loop of run_cycle over the rows loaded before it: step, clamp, skip, apply, publish or revert. */
    method TuneTargets(loaded: Table, targets: seq<(Key, real, Fate)>, now: int, metrics: Metrics)
      requires loaded == rows
      requires forall i, j :: 0 <= i < j < |targets| ==> targets[i].0 != targets[j].0
      modifies this
      ensures Value() == TuneAll(old(Value()), targets, now, metrics)
    {
      for i := 0 to |targets|
        invariant TuneAll(old(Value()), targets, now, metrics) == TuneAll(Value(), targets[i..], now, metrics)
        invariant rows.Keys == loaded.Keys
        invariant forall j :: i <= j < |targets| && targets[j].0 in loaded ==> rows[targets[j].0] == loaded[targets[j].0]
      {
        assert targets[i..][1..] == targets[i + 1..];
        var (key, target, fate) := targets[i];
        ghost var before := Value();
        if key !in loaded || !loaded[key].enabled || loaded[key].pending {
          continue;
        }
        var row := loaded[key];
        var stepped := StepLimit(row.current, target, row.stepPct, row.default);
        var bounded := Clamp(stepped, row.min, row.max);
        if Abs(bounded - row.current) < EPSILON {
          continue;
        }
        Update(key, ApplyChange(rows[key], bounded, now, metrics));
        match fate {
          case Interrupted =>
            assert Value() == TuneKey(before, key, target, now, metrics, fate) != before;
            return;
          case Published =>
            Publish(key, bounded, FromTuner);
          case Reverted =>
            rows := rows[key := RevertUnpublished(rows[key], row)];
            stale := before.stale;
        }
        assert Value() == TuneKey(before, key, target, now, metrics, fate);
      }
    }
  }

  // ── The whole system ──────────────────────────────────────────────────

  datatype Sys = Sys(store: Store, settings: Settings, bounds: Bounds)

  datatype Event =
    | TuneOne(key: Key, target: real, now: int, metrics: Metrics, fate: Fate)
    | EvaluateOne(key: Key, now: int, metrics: Metrics, tolerance: Tolerance, published: bool)
    | OverrideOne(key: Key, value: real, default: Option<real>, published: bool)
    | ReseedOne(key: Key, configured: real, stepPct: real)
    | SyncOne(key: Key)                 // the tuner's startup publish of one enabled row
    | Foreign(message: Message)         // anything another client puts on the channel
    | DeliverOne
    | Reconnect(answers: Answers)

  function Next(s: Sys, e: Event): Sys {
    match e
    case TuneOne(key, target, now, metrics, fate) => s.(store := TuneKey(s.store, key, target, now, metrics, fate))
    case EvaluateOne(key, now, metrics, tolerance, published) =>
      s.(store := EvaluateKey(s.store, key, now, metrics, tolerance, published))
    case OverrideOne(key, value, default, published) =>
      if key in s.store.rows
      then s.(store := Written(s.store, key, Overridden(s.store.rows[key], value, default), FromManual, published)) else s
    case ReseedOne(key, default, stepPct) =>
      if key in s.store.rows
      then
        var row := s.store.rows[key];
        s.(store := Written(s.store, key, Reseeded(row, Seed(default, row.min, row.max, stepPct)), FromSync, false))
      else s
    case SyncOne(key) =>
      if key in s.store.rows && s.store.rows[key].enabled
      then s.(store := Written(s.store, key, s.store.rows[key], FromSync, true)) else s
    case Foreign(m) => if SourceAllowed(m.source) then s else s.(store := s.store.(channel := s.store.channel + [m]))
    case DeliverOne =>
      if s.store.channel == [] then s
      else Sys(s.store.(channel := s.store.channel[1..]), Deliver(s.settings, s.bounds, s.store.channel[0]), s.bounds)
    case Reconnect(answers) =>
      var bounds := LoadedBounds(s.store.rows, answers.bounds);
      var stale := set k | k in s.store.rows && !answers.Snapshots(k);
      Sys(Store(s.store.rows, [], stale), Snapshot(s.settings, bounds, s.store.rows, answers), bounds)
  }

  function Run(s: Sys, events: seq<Event>): Sys
    decreases |events|
  {
    if events == [] then s else Run(Next(s, events[0]), events[1..])
  }

  /** What an executor will see of this key once the channel is empty is what the row says. */
  ghost predicate Agrees(s: Sys, key: Key)
    requires key in s.store.rows
  {
    var settings := Drained(s.settings, s.bounds, s.store.channel);
    key in settings && settings[key] == Mirror(key, s.store.rows[key].current)
  }

  ghost predicate Watched(s: Sys, key: Key) { key in s.store.rows && s.store.rows[key].enabled && Mirrored(key) }

  /** The subscriber clamps this key to the row's own bounds. */
  ghost predicate BoundsMatch(s: Sys, key: Key)
    requires key in s.store.rows
  {
    BoundsOf(key, s.bounds) == Some((s.store.rows[key].min, s.store.rows[key].max))
  }

  ghost predicate AllMatch(s: Sys) { forall key :: Watched(s, key) ==> BoundsMatch(s, key) }

  /** Once drained the setting is the row's value, clamped to what the subscriber takes for its bounds. */
  ghost predicate Follows(s: Sys, key: Key)
    requires key in s.store.rows && Mirrored(key)
  {
    var settings := Drained(s.settings, s.bounds, s.store.channel);
    key in settings && settings[key] == Mirror(key, ClampDynamic(key, s.store.rows[key].current, s.bounds).value)
  }

  ghost predicate KeyOk(s: Sys, key: Key)
    requires key in s.store.rows
  {
    && Tuner.Inv(s.store.rows[key])
    && (Watched(s, key) && key !in s.store.stale ==> Follows(s, key))
  }

  ghost predicate SysInv(s: Sys) { forall key :: key in s.store.rows ==> KeyOk(s, key) }

  /** With matching bounds the subscriber's clamp does not change a value that the row's own bounds allow. */
  lemma ClampIsIdle(s: Sys, key: Key, value: real)
    requires key in s.store.rows && BoundsMatch(s, key) && InBounds(s.store.rows[key], value)
    ensures ClampDynamic(key, value, s.bounds) == Some(value)
  {
  }

  /** A key that is not stale agrees exactly when the subscriber's bounds let its value through, as matching ones do. */
  lemma AgreementExact(s: Sys, key: Key)
    requires SysInv(s) && Watched(s, key) && key !in s.store.stale
    ensures Agrees(s, key) <==>
      Mirror(key, ClampDynamic(key, s.store.rows[key].current, s.bounds).value) == Mirror(key, s.store.rows[key].current)
    ensures BoundsMatch(s, key) ==> Agrees(s, key)
  {
    assert KeyOk(s, key);
  }

  lemma DrainedAppend(settings: Settings, bounds: Bounds, queue: seq<Message>, m: Message)
    ensures Drained(settings, bounds, queue + [m]) == Deliver(Drained(settings, bounds, queue), bounds, m)
  {
    assert (queue + [m])[..|queue|] == queue;
  }

  /** Delivering the first message and then the rest is delivering everything. */
  lemma {:induction false} DrainedFront(settings: Settings, bounds: Bounds, queue: seq<Message>)
    requires queue != []
    ensures Drained(Deliver(settings, bounds, queue[0]), bounds, queue[1..]) == Drained(settings, bounds, queue)
    decreases |queue|
  {
    var last := |queue| - 1;
    if last > 0 {
      DrainedFront(settings, bounds, queue[..last]);
      assert queue[..last][1..] == queue[1..][..last - 1];
    } else {
      assert queue[..0] == [];
      assert Drained(settings, bounds, queue[..0]) == settings;
    }
  }

  /** Every write of a row, published or not, with any allowed source. */
  lemma WriteKeepsInv(s: Sys, key: Key, row: ConfigRow, source: Source, published: bool)
    requires SysInv(s) && key in s.store.rows && SourceAllowed(source) && Tuner.Inv(row)
    requires var old' := s.store.rows[key]; row.min == old'.min && row.max == old'.max && row.enabled == old'.enabled
    ensures SysInv(s.(store := Written(s.store, key, row, source, published)))
  {
    var s' := s.(store := Written(s.store, key, row, source, published));
    DrainedAppend(s.settings, s.bounds, s.store.channel, Message(key, row.current, source));
    forall k | k in s'.store.rows ensures KeyOk(s', k) {
      assert KeyOk(s, k);
    }
  }

  /** A reconnect re-establishes every key whose snapshot answered, whatever was lost. */
  lemma ReconnectKeepsInv(s: Sys, answers: Answers)
    requires forall key :: key in s.store.rows ==> Tuner.Inv(s.store.rows[key])
    ensures SysInv(Next(s, Reconnect(answers)))
    ensures answers.All() ==> Next(s, Reconnect(answers)).store.stale == {} && AllMatch(Next(s, Reconnect(answers)))
  {
    var s' := Next(s, Reconnect(answers));
    forall key | key in s'.store.rows ensures KeyOk(s', key) {
      if Watched(s', key) && key !in s'.store.stale {
        assert Applies(key, s.store.rows, s'.bounds);
        assert key in s'.settings;
      }
    }
  }

  /** The built-in bounds of this key leave the mirrored value alone. */
  predicate PassesFallback(key: Key, value: real) {
    var b := FallbackBounds(key);
    b.Some? && Mirror(key, Clamp(value, b.value.0, b.value.1)) == Mirror(key, value)
  }

  /**
   Exactly when agreement survives a reconnect.  If the snapshot failed: when the setting had already been
   delivered.  If it answered but the bounds did not: when the built-in bounds let the value through.
   */
  lemma ReconnectExact(s: Sys, answers: Answers, key: Key)
    requires SysInv(s) && Watched(s, key)
    ensures var s' := Next(s, Reconnect(answers));
      var current := s.store.rows[key].current;
      Agrees(s', key) <==>
        if !answers.Snapshots(key) then key in s.settings && s.settings[key] == Mirror(key, current)
        else (answers.bounds || PassesFallback(key, current))
  {
    var s' := Next(s, Reconnect(answers));
    assert KeyOk(s, key);
    forall k | k in s.store.rows ensures Tuner.Inv(s.store.rows[k]) { assert KeyOk(s, k); }
    ReconnectKeepsInv(s, answers);
    if answers.Snapshots(key) {
      assert KeyOk(s', key);
      AgreementExact(s', key);
      assert answers.bounds ==> BoundsMatch(s', key);
    }
  }

  lemma ForeignKeepsInv(s: Sys, m: Message)
    requires SysInv(s)
    ensures SysInv(Next(s, Foreign(m)))
  {
    var s' := Next(s, Foreign(m));
    DrainedAppend(s.settings, s.bounds, s.store.channel, m);
    forall k | k in s'.store.rows ensures KeyOk(s', k) {
      assert KeyOk(s, k);
    }
  }

  lemma DeliveryKeepsInv(s: Sys)
    requires SysInv(s)
    ensures SysInv(Next(s, DeliverOne))
  {
    var s' := Next(s, DeliverOne);
    if s.store.channel != [] {
      DrainedFront(s.settings, s.bounds, s.store.channel);
    }
    forall k | k in s'.store.rows ensures KeyOk(s', k) {
      assert KeyOk(s, k);
    }
  }

  lemma RowStepKeepsFrame(r: ConfigRow, step: Tuner.Step)
    requires Tuner.Inv(r) && !step.Rebound?
    requires step.Reseed? ==> step.seed.min == r.min && step.seed.max == r.max
    ensures var r' := Tuner.Next(r, step); Tuner.Inv(r') && r'.min == r.min && r'.max == r.max && r'.enabled == r.enabled
  {
    StepKeepsInv(r, step);
  }

  lemma EventKeepsInv(s: Sys, e: Event)
    requires SysInv(s)
    ensures SysInv(Next(s, e))
  {
    if e.Foreign? {
      ForeignKeepsInv(s, e.message);
    } else if e.DeliverOne? {
      DeliveryKeepsInv(s);
    } else if e.Reconnect? {
      forall key | key in s.store.rows ensures Tuner.Inv(s.store.rows[key]) { assert KeyOk(s, key); }
      ReconnectKeepsInv(s, e.answers);
    } else if e.key in s.store.rows {
      var row := s.store.rows[e.key];
      assert KeyOk(s, e.key);
      match e
      case TuneOne(key, target, now, metrics, fate) =>
        RowStepKeepsFrame(row, Tune(target, now, metrics, fate));
        WriteKeepsInv(s, key, Tuned(row, target, now, metrics, fate), FromTuner, fate.Published?);
      case EvaluateOne(key, now, metrics, tolerance, published) =>
        RowStepKeepsFrame(row, Evaluate(now, metrics, tolerance));
        WriteKeepsInv(s, key, Evaluated(row, now, metrics, tolerance), FromRollback, published && Degraded(row, metrics, tolerance));
      case OverrideOne(key, value, default, published) =>
        RowStepKeepsFrame(row, Override(value, default));
        WriteKeepsInv(s, key, Overridden(row, value, default), FromManual, published);
      case ReseedOne(key, default, stepPct) =>
        var seed := Seed(default, row.min, row.max, stepPct);
        RowStepKeepsFrame(row, Reseed(seed));
        WriteKeepsInv(s, key, Reseeded(row, seed), FromSync, false);
      case SyncOne(key) =>
        if row.enabled { WriteKeepsInv(s, key, row, FromSync, true); }
    }
  }

  lemma {:induction false} RunKeepsSysInv(s: Sys, events: seq<Event>)
    requires SysInv(s)
    ensures SysInv(Run(s, events))
    decreases |events|
  {
    if events != [] {
      EventKeepsInv(s, events[0]);
      RunKeepsSysInv(Next(s, events[0]), events[1..]);
    }
  }

  // A cycle of the tuner is a run of such events, whatever its publishes and errors.

  lemma {:induction false} EvaluationKeepsInv(s: Sys, keys: seq<(Key, bool)>, now: int, metrics: Metrics, tolerance: Tolerance)
    requires SysInv(s)
    ensures SysInv(s.(store := EvaluateAll(s.store, keys, now, metrics, tolerance)))
  {
    if keys != [] {
      var last := |keys| - 1;
      EvaluationKeepsInv(s, keys[..last], now, metrics, tolerance);
      EventKeepsInv(
        s.(store := EvaluateAll(s.store, keys[..last], now, metrics, tolerance)),
        EvaluateOne(keys[last].0, now, metrics, tolerance, keys[last].1));
    }
  }

  lemma {:induction false} TuningKeepsInv(s: Sys, targets: seq<(Key, real, Fate)>, now: int, metrics: Metrics)
    requires SysInv(s)
    ensures SysInv(s.(store := TuneAll(s.store, targets, now, metrics)))
    decreases |targets|
  {
    if targets != [] {
      var (key, target, fate) := targets[0];
      EventKeepsInv(s, TuneOne(key, target, now, metrics, fate));
      TuningKeepsInv(s.(store := TuneKey(s.store, key, target, now, metrics, fate)), targets[1..], now, metrics);
    }
  }

  /**
   Steps after which nothing is missed: no value changes without a message, and connections get their answers.  A
   failed publish of a new value is reverted, so it counts.
   */
  predicate Loud(e: Event) {
    match e
    case TuneOne(_, _, _, _, fate) => !fate.Interrupted?
    case EvaluateOne(_, _, _, _, published) => published
    case OverrideOne(_, _, _, published) => published
    case ReseedOne(_, _, _) => false
    case Reconnect(answers) => answers.All()
    case _ => true
  }

  /** Nothing stale, and the subscriber uses the rows' own bounds. */
  ghost predicate InStep(s: Sys) { s.store.stale == {} && AllMatch(s) }

  lemma LoudKeepsInStep(s: Sys, e: Event)
    requires SysInv(s) && Loud(e) && InStep(s)
    ensures InStep(Next(s, e))
  {
    if e.Reconnect? {
      forall k | k in s.store.rows ensures Tuner.Inv(s.store.rows[k]) { assert KeyOk(s, k); }
      ReconnectKeepsInv(s, e.answers);
    } else {
      if (e.TuneOne? || e.EvaluateOne? || e.OverrideOne?) && e.key in s.store.rows {
        assert KeyOk(s, e.key);
      }
      forall key | Watched(Next(s, e), key) ensures BoundsMatch(Next(s, e), key) {
        assert Watched(s, key) && BoundsMatch(s, key);
      }
    }
  }

  /**
   Agreement over whole runs: once the channel is drained every setting of a key that is not stale is its row's
   value, clamped by the subscriber's bounds; and in runs without unpublished changes and failed connection
   queries, failed publishes of new values included, it is exactly the row's value for every key.
   */
  lemma {:induction false} RuntimeAgrees(s: Sys, events: seq<Event>, key: Key)
    requires SysInv(s)
    requires Watched(Run(s, events), key) && Run(s, events).store.channel == []
    ensures var s' := Run(s, events);
      && (key !in s'.store.stale ==>
            && key in s'.settings
            && s'.settings[key] == Mirror(key, ClampDynamic(key, s'.store.rows[key].current, s'.bounds).value))
      && (InStep(s) && (forall i :: 0 <= i < |events| ==> Loud(events[i])) ==>
            key in s'.settings && s'.settings[key] == Mirror(key, s'.store.rows[key].current))
    decreases |events|
  {
    RunKeepsSysInv(s, events);
    if events == [] {
      assert KeyOk(s, key);
      if InStep(s) {
        AgreementExact(s, key);
      }
    } else {
      EventKeepsInv(s, events[0]);
      if InStep(s) && Loud(events[0]) {
        LoudKeepsInStep(s, events[0]);
      }
      RuntimeAgrees(Next(s, events[0]), events[1..], key);
    }
  }

  /** A rollback whose publish fails keeps agreement exactly when it does not change what the executor would see. */
  lemma SilentRollbackExact(s: Sys, key: Key, now: int, metrics: Metrics, tolerance: Tolerance)
    requires SysInv(s) && Watched(s, key) && key !in s.store.stale
    requires Due(s.store.rows[key], now, tolerance) && Degraded(s.store.rows[key], metrics, tolerance)
    ensures var s' := Next(s, EvaluateOne(key, now, metrics, tolerance, false));
      && (Agrees(s', key) <==>
            Mirror(key, s.store.rows[key].lastGood) == Mirror(key, ClampDynamic(key, s.store.rows[key].current, s.bounds).value))
      && (BoundsMatch(s, key) ==>
            (Agrees(s', key) <==> Mirror(key, s.store.rows[key].lastGood) == Mirror(key, s.store.rows[key].current)))
  {
    assert KeyOk(s, key);
    if BoundsMatch(s, key) { ClampIsIdle(s, key, s.store.rows[key].current); }
  }

  // ── Agreement, key by key ─────────────────────────────────────────────

  /** A whole number, of the same sign, and the nearest such towards zero. */
  predicate IsWholePart(whole: real, x: real) {
    && whole == whole.Floor as real
    && (if x >= 0.0 then 0.0 <= whole <= x < whole + 1.0 else whole - 1.0 < x <= whole <= 0.0)
  }

  /** One allowed message within the subscriber's bounds: the named setting takes its value, no other changes. */
  lemma DeliveredValue(settings: Settings, bounds: Bounds, m: Message, lo: real, hi: real)
    requires BoundsOf(m.key, bounds) == Some((lo, hi)) && lo <= m.value <= hi
    requires m.source in {FromTuner, FromRollback, FromSync, FromManual}
    ensures var after := Deliver(settings, bounds, m);
      && (m.key in {PositionSize, MinNetProfit, MinBookDepth, QuantBaseSize} ==> m.key in after && after[m.key] == m.value)
      && (m.key == MaxSignalAge ==> m.key in after && IsWholePart(after[m.key], m.value))
      && (m.key !in {PositionSize, MinNetProfit, MinBookDepth, MaxSignalAge, QuantBaseSize} ==> after == settings)
      && (forall k :: k != m.key ==> (k in after <==> k in settings) && (k in settings ==> after[k] == settings[k]))
  {
    WholePart(m.value);
  }

  lemma WholePart(x: real)
    ensures IsWholePart(Truncated(x), x)
  {
    if x >= 0.0 {
      assert Truncated(x) == x.Floor as real;
    } else {
      assert Truncated(x) == (-((-x).Floor)) as real;
    }
  }

  /** The startup publish is for enabled rows: it tells every one of them, and nothing about the others. */
  lemma SyncTellsEnabledRows(s: Sys, key: Key)
    requires key in s.store.rows
    ensures var s' := Next(s, SyncOne(key));
      && (s.store.rows[key].enabled ==>
            s'.store.channel == s.store.channel + [Message(key, s.store.rows[key].current, FromSync)] && key !in s'.store.stale)
      && (!s.store.rows[key].enabled ==> s' == s)
  {
    if s.store.rows[key].enabled {
      assert s.store.rows[key := s.store.rows[key]] == s.store.rows;
    }
  }

  /** A manual override reaches the row with its default, and the channel exactly when it is published. */
  lemma OverrideTells(s: Sys, key: Key, value: real, default: real, published: bool)
    requires key in s.store.rows && Tuner.Inv(s.store.rows[key])
    requires InBounds(s.store.rows[key], value) && InBounds(s.store.rows[key], default)
    ensures var s' := Next(s, OverrideOne(key, value, Some(default), published));
      && s'.store.rows[key].current == value && s'.store.rows[key].default == default
      && s'.store.channel == s.store.channel + (if published then [Message(key, value, FromManual)] else [])
  {
  }

  /**
   What a connection sets up, key by key: bounds of the enabled rows if that query answers, else the built-in ones;
   settings of the enabled rows from the executor's own snapshot if that answers, else what they were.
   */
  lemma ConnectionLaw(s: Sys, answers: Answers, key: Key)
    requires key in s.store.rows
    ensures var s', r := Next(s, Reconnect(answers)), s.store.rows[key];
      && s'.store.channel == [] && s'.store.rows == s.store.rows
      && (answers.bounds && r.enabled ==> BoundsOf(key, s'.bounds) == Some((r.min, r.max)))
      && (!answers.bounds || !r.enabled ==> BoundsOf(key, s'.bounds) == FallbackBounds(key))
      && (!r.enabled && key in s.settings ==> key in s'.settings && s'.settings[key] == s.settings[key])
      && (key == QuantBaseSize && !answers.quant && key in s.settings ==> key in s'.settings && s'.settings[key] == s.settings[key])
      && (key in {PositionSize, MinNetProfit, MinBookDepth, MaxSignalAge} && !answers.arb && key in s.settings ==>
            key in s'.settings && s'.settings[key] == s.settings[key])
      && (key == QuantBaseSize && answers.quant && answers.bounds && r.enabled && InBounds(r, r.current) ==>
            key in s'.settings && s'.settings[key] == r.current)
      && (key in {PositionSize, MinNetProfit, MinBookDepth} && answers.arb && answers.bounds && r.enabled && InBounds(r, r.current) ==>
            key in s'.settings && s'.settings[key] == r.current)
  {
  }

  /** Nothing from an unknown source gets through. */
  lemma UnknownSourceIsIgnored(settings: Settings, bounds: Bounds, m: Message)
    requires m.source.Unknown?
    ensures Deliver(settings, bounds, m) == settings
  {
  }

  predicate Enabled(s: Sys, key: Key) { key in s.store.rows && s.store.rows[key].enabled }

  /**
   The five executor settings after every loud run, once drained: position size, minimum profit, minimum depth and
   quant base size are the rows' values themselves, and the signal age is the whole part of its row's.
   */
  lemma SettingsAreTheRows(s: Sys, events: seq<Event>)
    requires SysInv(s) && InStep(s) && (forall i :: 0 <= i < |events| ==> Loud(events[i]))
    requires Run(s, events).store.channel == []
    ensures var s' := Run(s, events);
      && (forall key :: key in {PositionSize, MinNetProfit, MinBookDepth, QuantBaseSize} && Enabled(s', key) ==>
            key in s'.settings && s'.settings[key] == s'.store.rows[key].current)
      && (Enabled(s', MaxSignalAge) ==>
            MaxSignalAge in s'.settings && IsWholePart(s'.settings[MaxSignalAge], s'.store.rows[MaxSignalAge].current))
  {
    var s' := Run(s, events);
    forall key | key in {PositionSize, MinNetProfit, MinBookDepth, QuantBaseSize, MaxSignalAge} && Enabled(s', key)
      ensures key in s'.settings && s'.settings[key] == Mirror(key, s'.store.rows[key].current)
    {
      RuntimeAgrees(s, events, key);
    }
    if MaxSignalAge in s'.store.rows {
      WholePart(s'.store.rows[MaxSignalAge].current);
    }
  }

  /** A subscriber that could not load the bounds still agrees on every row that has its seeded bounds. */
  lemma SeededRowsSurviveFailedBounds(s: Sys, answers: Answers, key: Key, configured: real)
    requires SysInv(s) && Watched(s, key) && answers.Snapshots(key)
    requires SeedOf(key, configured).Some?
    requires s.store.rows[key].min == SeedOf(key, configured).value.min && s.store.rows[key].max == SeedOf(key, configured).value.max
    ensures Agrees(Next(s, Reconnect(answers)), key)
  {
    TablesAgree(key, configured);
    assert KeyOk(s, key);
    ReconnectExact(s, answers, key);
  }
}
