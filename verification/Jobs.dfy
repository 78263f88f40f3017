/** The multi-job manager (app/job_manager.py): the periodic tick of one job, and the shared
    ownership of order-book feeds across jobs. */
module Jobs {
  import opened Wrappers
  import opened Books
  import opened Arbitrage
  import opened ArbitrageEngine

  // ---------------------------------------------------------------------------
  // One tick of a job
  // ---------------------------------------------------------------------------

  const EXIT_RETRY_COOLDOWN_S: real := 60.0
  const ENTRY_COOLDOWN_S: real := 120.0
  const SECONDS_PER_HOUR: real := 3600.0

  datatype Schedule = Schedule(holdDurationH: Option<real>, minExitSpread: real)

  datatype Status = Idle | Monitoring | Holding | AwaitingExit

  /** A job's state together with its engine's. */
  datatype JobState = JobState(
    desk: Desk, counter: Counter, entryTime: Option<real>, status: Status, lastExitFail: real, lastExitOk: real)

  /** What the environment supplies to one tick: the clock, the spread (None when it cannot be
      computed) and the trading environment. */
  datatype TickInput = TickInput(now: real, snap: Option<SpreadSnapshot>, env: TradeEnv)

  predicate Scheduled(entryTime: Option<real>, sched: Schedule) { entryTime.Some? && sched.holdDurationH.Some? }

  predicate HeldLongEnough(entryTime: Option<real>, sched: Schedule, now: real) {
    Scheduled(entryTime, sched) && (now - entryTime.value) / SECONDS_PER_HOUR >= sched.holdDurationH.value
  }

  /** With a schedule, the convergence strategy ignores the confirmed exit signal altogether. */
  predicate ShouldExit(cfg: Config, sched: Schedule, entryTime: Option<real>, snap: SpreadSnapshot,
                       action: Signal, now: real)
  {
    if cfg.strategy.DeltaNeutral? then
      action.Exit? || (HeldLongEnough(entryTime, sched, now) && snap.spreadPct <= cfg.maxSpreadPct)
    else if Scheduled(entryTime, sched) then
      HeldLongEnough(entryTime, sched, now) && Abs(snap.execSpread) <= sched.minExitSpread
    else
      action.Exit?
  }

  function StatusOf(j: JobState, sched: Schedule, autoTrade: bool, now: real): Status {
    if !j.desk.hasPosition then (if autoTrade then Monitoring else Idle)
    else if Scheduled(j.entryTime, sched) && HeldLongEnough(j.entryTime, sched, now) then AwaitingExit
    else Holding
  }

  function AfterExit(j: JobState, cfg: Config, snap: SpreadSnapshot, i: TickInput): JobState {
    var (desk, success) := ExitResult(j.desk, cfg, snap, i.env);
    if success then j.(desk := desk, entryTime := None, status := Monitoring, lastExitOk := i.now)
    else j.(desk := desk, lastExitFail := i.now)
  }

  function AfterEntry(j: JobState, cfg: Config, snap: SpreadSnapshot, i: TickInput): JobState {
    var (desk, success) := EntryResult(j.desk, cfg, snap, i.env);
    if success then j.(desk := desk, entryTime := Some(i.now), status := Holding) else j.(desk := desk)
  }

  function Tick(j: JobState, cfg: Config, sched: Schedule, autoTrade: bool, i: TickInput): JobState {
    if i.snap.None? then j
    else
      var snap := i.snap.value;
      var (action, counter) := Confirm(j.counter, RawSignal(cfg, j.desk.hasPosition, snap), cfg.confirmations);
      var seen := j.(counter := counter, status := StatusOf(j, sched, autoTrade, i.now));
      if !autoTrade then seen
      else if j.desk.hasPosition then
        if !Named(j.desk.longSym) || !Named(j.desk.shortSym) then seen.(status := AwaitingExit)
        else if !ShouldExit(cfg, sched, j.entryTime, snap, action, i.now)
                || i.now - j.lastExitFail < EXIT_RETRY_COOLDOWN_S then seen
        else AfterExit(seen, cfg, snap, i)
      else if action.Entry? && i.now - j.lastExitOk >= ENTRY_COOLDOWN_S then AfterEntry(seen, cfg, snap, i)
      else seen
  }

  function RunTicks(j: JobState, cfg: Config, sched: Schedule, autoTrade: bool, inputs: seq<TickInput>): JobState
    decreases inputs
  {
    if inputs == [] then j
    else RunTicks(Tick(j, cfg, sched, autoTrade, inputs[0]), cfg, sched, autoTrade, inputs[1..])
  }

  class ArbJob {
    const engine: ArbitrageEngine
    var schedule: Schedule
    var entryTime: Option<real>
    var status: Status
    var autoTrade: bool

    constructor (engine: ArbitrageEngine, schedule: Schedule, autoTrade: bool)
      ensures this.engine == engine && this.schedule == schedule && this.autoTrade == autoTrade
      ensures entryTime == None && status == if engine.hasPosition then Holding else Idle
    {
      this.engine, this.schedule, this.autoTrade := engine, schedule, autoTrade;
      entryTime := None;
      status := if engine.hasPosition then Holding else Idle;
    }

    ghost function View(): JobState
      reads this, engine
    {
      JobState(engine.GetDesk(), engine.GetCounter(), entryTime, status,
               engine.lastExitFailTs, engine.lastExitSuccessTs)
    }

    /** _tick_job. */
    method TickJob(i: TickInput)
      modifies this`entryTime, this`status, engine
      ensures View() == Tick(old(View()), old(engine.cfg), schedule, autoTrade, i)
      ensures engine.cfg == old(engine.cfg)
    {
      hide EntryResult, ExitResult, Confirm, RawSignal;
      if i.snap.None? {
        return;
      }
      var snap := i.snap.value;
      var action := engine.Evaluate(snap);

      if !engine.hasPosition {
        status := if autoTrade then Monitoring else Idle;
      } else if entryTime.Some? && schedule.holdDurationH.Some? {
        var elapsedH := (i.now - entryTime.value) / SECONDS_PER_HOUR;
        status := if elapsedH >= schedule.holdDurationH.value then AwaitingExit else Holding;
      } else {
        status := Holding;
      }
      if !autoTrade {
        return;
      }

      if engine.hasPosition {
        if !Named(engine.longSym) || !Named(engine.shortSym) {
          status := AwaitingExit;
          return;
        }
        var shouldExit := ShouldExit(engine.cfg, schedule, entryTime, snap, action, i.now);
        if shouldExit {
          if i.now - engine.lastExitFailTs < EXIT_RETRY_COOLDOWN_S {
            return;
          }
          var success := engine.ExecuteExit(snap, i.env);
          if success {
            entryTime := None;
            status := Monitoring;
            engine.lastExitSuccessTs := i.now;
          } else {
            engine.lastExitFailTs := i.now;
          }
        }
      } else if action == Entry {
        if i.now - engine.lastExitSuccessTs < ENTRY_COOLDOWN_S {
          return;
        }
        var success := engine.ExecuteEntry(snap, i.env);
        if success {
          entryTime := Some(i.now);
          status := Holding;
        }
      }
    }
  }

  /** Legs report what they filled, and the position reads after an entry are not all empty. */
  ghost predicate HonestInput(cfg: Config, i: TickInput) {
    HonestLegs(cfg, i.env) && ShowsAPosition(cfg, i.env)
  }

  lemma TickKeepsBalance(j: JobState, cfg: Config, sched: Schedule, autoTrade: bool, i: TickInput)
    requires !cfg.simulation && cfg.instrumentA != cfg.instrumentB
    requires HonestInput(cfg, i) && Balanced(j.desk, cfg)
    ensures Balanced(Tick(j, cfg, sched, autoTrade, i).desk, cfg)
  {
    hide EntryResult, ExitResult, Confirm, RawSignal, ShouldExit, Balanced;
    if i.snap.Some? {
      if j.desk.hasPosition {
        ExitKeepsBalance(j.desk, cfg, i.snap.value, i.env);
      } else {
        EntryKeepsBalance(j.desk, cfg, i.snap.value, i.env);
      }
    }
  }

  /** Over every run of ticks, whatever the legs and unwinds do, the exchange's net position on
      each instrument is what the engine records plus the amounts that failed unwinds left. */
  lemma {:induction false} LedgerStaysBalanced(j: JobState, cfg: Config, sched: Schedule, autoTrade: bool,
                                               inputs: seq<TickInput>)
    requires !cfg.simulation && cfg.instrumentA != cfg.instrumentB && Balanced(j.desk, cfg)
    requires forall k :: 0 <= k < |inputs| ==> HonestInput(cfg, inputs[k])
    ensures Balanced(RunTicks(j, cfg, sched, autoTrade, inputs).desk, cfg)
    decreases inputs
  {
    hide Balanced, Tick, HonestInput;
    if inputs != [] {
      TickKeepsBalance(j, cfg, sched, autoTrade, inputs[0]);
      LedgerStaysBalanced(Tick(j, cfg, sched, autoTrade, inputs[0]), cfg, sched, autoTrade, inputs[1..]);
    }
  }

  /** If moreover no unwind ever fails, nothing is left over: the exchange holds exactly what the
      engine records. */
  lemma {:induction false} NoFailedUnwindNoResidue(j: JobState, cfg: Config, sched: Schedule, autoTrade: bool,
                                                   inputs: seq<TickInput>)
    requires forall k :: 0 <= k < |inputs| ==> inputs[k].env.unwindBoughtOk && inputs[k].env.unwindSoldOk
    ensures RunTicks(j, cfg, sched, autoTrade, inputs).desk.residue == j.desk.residue
    decreases inputs
  {
    if inputs != [] {
      TickWithoutResidue(j, cfg, sched, autoTrade, inputs[0]);
      NoFailedUnwindNoResidue(Tick(j, cfg, sched, autoTrade, inputs[0]), cfg, sched, autoTrade, inputs[1..]);
    }
  }

  lemma TickWithoutResidue(j: JobState, cfg: Config, sched: Schedule, autoTrade: bool, i: TickInput)
    requires i.env.unwindBoughtOk && i.env.unwindSoldOk
    ensures Tick(j, cfg, sched, autoTrade, i).desk.residue == j.desk.residue
  {
    hide Confirm, RawSignal, ShouldExit, SpreadRefused, OrdersBlocked;
  }

  /** The venue is truthful, each leg is one whose report tells its fill, and the position reads
      after an entry are not all empty. */
  ghost predicate TruthfulInput(cfg: Config, i: TickInput) {
    && TruthfulLeg(cfg, i.env.bought) && TellsItsFill(cfg, i.env.bought)
    && TruthfulLeg(cfg, i.env.sold) && TellsItsFill(cfg, i.env.sold)
    && ShowsAPosition(cfg, i.env)
  }

  /** The ledger theorem on what the venue does instead of on what the legs report: polled limit
      orders, or market orders sent whole, keep the ledger balanced over every run of ticks. */
  lemma TruthfulVenueKeepsLedger(j: JobState, cfg: Config, sched: Schedule, autoTrade: bool, inputs: seq<TickInput>)
    requires !cfg.simulation && cfg.instrumentA != cfg.instrumentB && Balanced(j.desk, cfg)
    requires forall k :: 0 <= k < |inputs| ==> TruthfulInput(cfg, inputs[k])
    ensures Balanced(RunTicks(j, cfg, sched, autoTrade, inputs).desk, cfg)
  {
    forall k | 0 <= k < |inputs| ensures HonestInput(cfg, inputs[k]) {
      hide TruthfulLeg, TellsItsFill, ShowsAPosition, Honest, ReportOf;
      assert TruthfulInput(cfg, inputs[k]);
      LegIsHonestExactlyWhen(cfg, inputs[k].env.bought);
      LegIsHonestExactlyWhen(cfg, inputs[k].env.sold);
    }
    LedgerStaysBalanced(j, cfg, sched, autoTrade, inputs);
  }

  /** Legs that can be trusted by the way they are sent and answered, with a truthful venue. */
  ghost predicate TrustworthyInput(cfg: Config, i: TickInput) {
    && TruthfulLeg(cfg, i.env.bought) && Trustworthy(cfg, i.env.bought)
    && TruthfulLeg(cfg, i.env.sold) && Trustworthy(cfg, i.env.sold)
    && ShowsAPosition(cfg, i.env)
  }

  /** The ledger theorem on conditions that can be checked without knowing what the venue filled. */
  lemma TrustworthyLegsKeepLedger(j: JobState, cfg: Config, sched: Schedule, autoTrade: bool, inputs: seq<TickInput>)
    requires !cfg.simulation && cfg.instrumentA != cfg.instrumentB && Balanced(j.desk, cfg) && cfg.quantity > 0.0
    requires forall k :: 0 <= k < |inputs| ==> TrustworthyInput(cfg, inputs[k])
    ensures Balanced(RunTicks(j, cfg, sched, autoTrade, inputs).desk, cfg)
  {
    forall k | 0 <= k < |inputs| ensures TruthfulInput(cfg, inputs[k]) {
      hide TruthfulLeg, TellsItsFill, Trustworthy, ShowsAPosition;
      assert TrustworthyInput(cfg, inputs[k]);
      TrustworthyTellsItsFill(cfg, inputs[k].env.bought);
      TrustworthyTellsItsFill(cfg, inputs[k].env.sold);
    }
    TruthfulVenueKeepsLedger(j, cfg, sched, autoTrade, inputs);
  }

  // ---------------------------------------------------------------------------
  // What a tick does, and when
  // ---------------------------------------------------------------------------

  /** The evaluation of this tick confirms the signal. */
  predicate Confirms(j: JobState, cfg: Config, snap: SpreadSnapshot, signal: Signal) {
    Confirm(j.counter, RawSignal(cfg, j.desk.hasPosition, snap), cfg.confirmations).0 == signal
  }

  /** The job has a schedule and its hours are over. */
  predicate IsDue(j: JobState, sched: Schedule, now: real) {
    j.entryTime.Some? && sched.holdDurationH.Some? && now >= j.entryTime.value + sched.holdDurationH.value * 3600.0
  }

  lemma DueMeansHeld(j: JobState, sched: Schedule, now: real)
    ensures IsDue(j, sched, now) <==> HeldLongEnough(j.entryTime, sched, now)
  {
    if Scheduled(j.entryTime, sched) {
      var d := (now - j.entryTime.value) / SECONDS_PER_HOUR;
      assert d * SECONDS_PER_HOUR == now - j.entryTime.value;
    }
  }

  /** An auto-trading job with a tradable position attempts an exit (and so stamps the time of a success
      or a failure) exactly when the last failure is 60 seconds old and: for delta-neutral, the exit is
      confirmed or the schedule is due at a small enough percentage; for convergence, the exit is
      confirmed and there is no schedule, or the schedule is due and its spread bound holds. */
  lemma ExitIsAttemptedExactlyWhen(j: JobState, cfg: Config, sched: Schedule, i: TickInput)
    requires i.snap.Some? && j.desk.hasPosition && Named(j.desk.longSym) && Named(j.desk.shortSym)
    requires j.lastExitFail < i.now && j.lastExitOk < i.now
    ensures var after, snap := Tick(j, cfg, sched, true, i), i.snap.value;
            (after.lastExitFail == i.now || after.lastExitOk == i.now)
            <==> && i.now - j.lastExitFail >= 60.0
                 && (if cfg.strategy.DeltaNeutral? then
                       Confirms(j, cfg, snap, Exit) || (IsDue(j, sched, i.now) && snap.spreadPct <= cfg.maxSpreadPct)
                     else if j.entryTime.Some? && sched.holdDurationH.Some? then
                       IsDue(j, sched, i.now) && Narrow(snap, sched.minExitSpread)
                     else Confirms(j, cfg, snap, Exit))
  {
    hide ExitResult, Confirm, RawSignal;
    DueMeansHeld(j, sched, i.now);
  }

  /** A confirmed exit is attempted, outside the 60 seconds, unless the convergence strategy has a
      schedule that is not due or whose spread bound fails. */
  lemma ConfirmedExitIsActedOnExactlyWhen(j: JobState, cfg: Config, sched: Schedule, i: TickInput)
    requires i.snap.Some? && j.desk.hasPosition && Named(j.desk.longSym) && Named(j.desk.shortSym)
    requires Confirms(j, cfg, i.snap.value, Exit)
    requires j.lastExitFail < i.now && j.lastExitOk < i.now
    ensures var after := Tick(j, cfg, sched, true, i);
            (after.lastExitFail == i.now || after.lastExitOk == i.now)
            <==> && i.now - j.lastExitFail >= 60.0
                 && (|| cfg.strategy.DeltaNeutral? || j.entryTime.None? || sched.holdDurationH.None?
                     || (i.now >= j.entryTime.value + sched.holdDurationH.value * 3600.0
                         && Abs(i.snap.value.execSpread) <= sched.minExitSpread))
  {
    hide Tick, Confirms;
    ExitIsAttemptedExactlyWhen(j, cfg, sched, i);
  }

  /** What an attempted exit leaves: after a success a flat, monitoring job without an entry time; after
      a failure the position, its entry time and the last success as they were. */
  lemma AttemptedExitLeaves(j: JobState, cfg: Config, sched: Schedule, i: TickInput)
    requires i.snap.Some? && j.desk.hasPosition && j.lastExitFail < i.now && j.lastExitOk < i.now
    ensures var after := Tick(j, cfg, sched, true, i);
            && (after.lastExitOk == i.now ==>
                  !after.desk.hasPosition && after.entryTime.None? && after.status.Monitoring?
                  && after.lastExitFail == j.lastExitFail)
            && (after.lastExitFail == i.now ==>
                  after.desk.hasPosition && after.entryTime == j.entryTime && after.lastExitOk == j.lastExitOk)
            && (after.lastExitOk != i.now && after.lastExitFail != i.now ==> after.desk == j.desk)
  {
    hide Confirm, RawSignal, ShouldExit, OrdersBlocked, BothFilled, ReportOf, Reversal;
  }

  /** An auto-trading flat job that confirms an entry which would succeed enters, stamps the time and
      holds, exactly when the last successful exit is 120 seconds old. */
  lemma ConfirmedEntryIsActedOnExactlyWhen(j: JobState, cfg: Config, sched: Schedule, i: TickInput)
    requires i.snap.Some? && !j.desk.hasPosition && j.entryTime != Some(i.now)
    requires Confirms(j, cfg, i.snap.value, Entry) && EntryResult(j.desk, cfg, i.snap.value, i.env).1
    ensures var after := Tick(j, cfg, sched, true, i);
            && (after.entryTime == Some(i.now) && after.status.Holding? <==> i.now >= j.lastExitOk + 120.0)
            && after.desk == if i.now >= j.lastExitOk + 120.0 then EntryResult(j.desk, cfg, i.snap.value, i.env).0
                             else j.desk
  {
    hide EntryResult, Confirm, RawSignal;
  }

  /** Nothing is traded without a snapshot, without auto-trading, for a one-sided position, or by a flat
      job that confirms no entry. */
  lemma TickLeavesTheDesk(j: JobState, cfg: Config, sched: Schedule, autoTrade: bool, i: TickInput)
    requires || i.snap.None? || !autoTrade
             || (j.desk.hasPosition && (!Named(j.desk.longSym) || !Named(j.desk.shortSym)))
             || (!j.desk.hasPosition && !Confirms(j, cfg, i.snap.value, Entry))
    ensures var after := Tick(j, cfg, sched, autoTrade, i);
            && after.desk == j.desk && after.entryTime == j.entryTime
            && after.lastExitFail == j.lastExitFail && after.lastExitOk == j.lastExitOk
  {
    hide Confirm, RawSignal;
  }

  /** The status of a tick that trades nothing: a flat job monitors when it may trade and is idle when
      not; a job with a position awaits its exit when its schedule is due, or when it may trade but one
      of its symbols is missing, and otherwise holds. */
  lemma StatusMeans(j: JobState, cfg: Config, sched: Schedule, autoTrade: bool, i: TickInput)
    requires i.snap.Some?
    requires var after := Tick(j, cfg, sched, autoTrade, i);
             after.entryTime == j.entryTime && after.lastExitOk == j.lastExitOk
    requires j.entryTime != Some(i.now) && j.lastExitOk < i.now
    ensures var status := Tick(j, cfg, sched, autoTrade, i).status;
            if !j.desk.hasPosition then status == (if autoTrade then Monitoring else Idle)
            else status.AwaitingExit? <==>
                   IsDue(j, sched, i.now) || (autoTrade && !(Named(j.desk.longSym) && Named(j.desk.shortSym)))
  {
    hide EntryResult, ExitResult, Confirm, RawSignal, ShouldExit;
    DueMeansHeld(j, sched, i.now);
  }

  lemma EarlyTickLeavesTheDesk(j: JobState, cfg: Config, sched: Schedule, autoTrade: bool, i: TickInput)
    requires !j.desk.hasPosition && i.now < j.lastExitOk + 120.0
    ensures var after := Tick(j, cfg, sched, autoTrade, i); after.desk == j.desk && after.lastExitOk == j.lastExitOk
  {
    hide EntryResult, Confirm, RawSignal;
  }

  /** Over any run of ticks that all come less than 120 seconds after the last successful exit, a flat
      job stays flat. */
  lemma {:induction false} NoEntryAfterExit(j: JobState, cfg: Config, sched: Schedule, autoTrade: bool,
                                            inputs: seq<TickInput>)
    requires !j.desk.hasPosition
    requires forall k :: 0 <= k < |inputs| ==> inputs[k].now < j.lastExitOk + 120.0
    ensures RunTicks(j, cfg, sched, autoTrade, inputs).desk == j.desk
    decreases inputs
  {
    hide Tick;
    if inputs != [] {
      EarlyTickLeavesTheDesk(j, cfg, sched, autoTrade, inputs[0]);
      NoEntryAfterExit(Tick(j, cfg, sched, autoTrade, inputs[0]), cfg, sched, autoTrade, inputs[1..]);
    }
  }

  /** After a successful exit at some time the job is flat, and no tick of the following 120 seconds
      changes that. */
  lemma ExitAndEntryAreApart(j: JobState, cfg: Config, sched: Schedule, i: TickInput, autoTrade: bool,
                             inputs: seq<TickInput>)
    requires i.snap.Some? && j.desk.hasPosition && j.lastExitFail < i.now && j.lastExitOk < i.now
    requires Tick(j, cfg, sched, true, i).lastExitOk == i.now
    requires forall k :: 0 <= k < |inputs| ==> inputs[k].now < i.now + 120.0
    ensures !RunTicks(Tick(j, cfg, sched, true, i), cfg, sched, autoTrade, inputs).desk.hasPosition
  {
    hide Tick;
    AttemptedExitLeaves(j, cfg, sched, i);
    NoEntryAfterExit(Tick(j, cfg, sched, true, i), cfg, sched, autoTrade, inputs);
  }

  // ---------------------------------------------------------------------------
  // Feed ownership
  // ---------------------------------------------------------------------------

  datatype FeedKey = FeedKey(exchange: string, instrument: string)

  datatype Pair = Pair(a: FeedKey, b: FeedKey)

  /** Leg fields of a job config; a missing field keeps the default or the current value. */
  datatype LegPatch = LegPatch(
    exchangeA: Option<string>, instrumentA: Option<string>, exchangeB: Option<string>, instrumentB: Option<string>)

  function Or(o: Option<string>, current: string): string { if o.Some? then o.value else current }

  function Patched(p: Pair, patch: LegPatch): Pair {
    Pair(FeedKey(Or(patch.exchangeA, p.a.exchange), Or(patch.instrumentA, p.a.instrument)),
         FeedKey(Or(patch.exchangeB, p.b.exchange), Or(patch.instrumentB, p.b.instrument)))
  }

  /** What a job remembers of its position. */
  datatype Held = Held(hasPosition: bool, longSym: Option<string>, shortSym: Option<string>,
                       entryTime: Option<real>, status: Status)

  const NOTHING_HELD := Held(false, None, None, None, Idle)

  datatype JobEntry = JobEntry(pair: Pair, held: Held)

  type JobTable = map<string, JobEntry>

  datatype Registry = Registry(jobs: JobTable, feeds: set<FeedKey>)

  /** A create comes with the position its sync has found. */
  datatype Op =
    | Create(id: string, patch: LegPatch, found: Held)
    | Delete(id: string)
    | Update(id: string, patch: LegPatch)

  /** Both legs of every live job. */
  function Owned(jobs: JobTable): set<FeedKey> {
    (set id | id in jobs :: jobs[id].pair.a) + (set id | id in jobs :: jobs[id].pair.b)
  }

  function DropUnlessUsed(feeds: set<FeedKey>, jobs: JobTable, key: FeedKey): set<FeedKey> {
    if key in Owned(jobs) then feeds else feeds - {key}
  }

  /** One operation; an unknown or duplicate id changes nothing (the source raises). */
  function Apply(r: Registry, op: Op, defaults: Pair): Registry {
    match op
    case Create(id, patch, found) =>
      var pair := Patched(defaults, patch);
      if id in r.jobs then r else Registry(r.jobs[id := JobEntry(pair, found)], r.feeds + {pair.a} + {pair.b})
    case Delete(id) =>
      if id !in r.jobs then r
      else
        var jobs, pair := r.jobs - {id}, r.jobs[id].pair;
        Registry(jobs, DropUnlessUsed(DropUnlessUsed(r.feeds, jobs, pair.a), jobs, pair.b))
    case Update(id, patch) =>
      if id !in r.jobs then r
      else
        var before, after := r.jobs[id].pair, Patched(r.jobs[id].pair, patch);
        var jobs := r.jobs[id := JobEntry(after, NOTHING_HELD)];
        if after == before then r
        else Registry(jobs, DropUnlessUsed(DropUnlessUsed(r.feeds, jobs, before.a), jobs, before.b)
                            + {after.a} + {after.b})
  }

  function ApplyAll(r: Registry, ops: seq<Op>, defaults: Pair): Registry
    decreases ops
  {
    if ops == [] then r else ApplyAll(Apply(r, ops[0], defaults), ops[1..], defaults)
  }

  class JobManager {
    var jobs: JobTable
    var feeds: set<FeedKey>   // the feed manager's running subscriptions
    const defaults: Pair

    constructor (defaults: Pair)
      ensures View() == Registry(map[], {}) && this.defaults == defaults
    {
      jobs, feeds := map[], {};
      this.defaults := defaults;
    }

    function View(): Registry
      reads this
    {
      Registry(jobs, feeds)
    }

    /** create_job: false when the id exists. */
    method CreateJob(id: string, patch: LegPatch, found: Held) returns (ok: bool)
      modifies this
      ensures View() == Apply(old(View()), Create(id, patch, found), defaults)
      ensures ok <==> id !in old(jobs)
    {
      if id in jobs {
        return false;
      }
      var pair := Patched(defaults, patch);
      feeds := feeds + {pair.a};
      feeds := feeds + {pair.b};
      jobs := jobs[id := JobEntry(pair, found)];
      return true;
    }

    /** delete_job: false when the id is unknown. */
    method DeleteJob(id: string) returns (ok: bool)
      modifies this
      ensures View() == Apply(old(View()), Delete(id), defaults)
      ensures ok <==> id in old(jobs)
    {
      if id !in jobs {
        return false;
      }
      var pair := jobs[id].pair;
      jobs := jobs - {id};
      MaybeRemoveFeed(pair.a);
      MaybeRemoveFeed(pair.b);
      return true;
    }

    /** update_job_config, as far as it concerns the legs: a changed leg moves the feeds and forgets
        the position. */
    method UpdateJobConfig(id: string, patch: LegPatch) returns (ok: bool)
      modifies this
      ensures View() == Apply(old(View()), Update(id, patch), defaults)
      ensures ok <==> id in old(jobs)
    {
      if id !in jobs {
        return false;
      }
      hide Owned, Patched;
      ghost var were := jobs;
      var before := jobs[id].pair;
      var after := Patched(before, patch);
      jobs := jobs[id := jobs[id].(pair := after)];
      var instrumentsChanged := after != before;
      if instrumentsChanged {
        SameLegsSameOwners(jobs, id, jobs[id].(held := NOTHING_HELD));
        MaybeRemoveFeed(before.a);
        MaybeRemoveFeed(before.b);
        feeds := feeds + {after.a};
        feeds := feeds + {after.b};
        jobs := jobs[id := jobs[id].(held := NOTHING_HELD)];
        assert jobs == were[id := JobEntry(after, NOTHING_HELD)];
      } else {
        assert jobs == were;
      }
      return true;
    }

    /** _maybe_remove_feed: keep the feed as soon as some job uses it. */
    method MaybeRemoveFeed(key: FeedKey)
      modifies `feeds
      ensures feeds == DropUnlessUsed(old(feeds), jobs, key)
    {
      var rest := jobs.Keys;
      while rest != {}
        invariant rest <= jobs.Keys
        invariant forall id :: id in jobs.Keys - rest ==> jobs[id].pair.a != key && jobs[id].pair.b != key
        decreases rest
      {
        var id :| id in rest;
        if jobs[id].pair.a == key {
          return;
        }
        if jobs[id].pair.b == key {
          return;
        }
        rest := rest - {id};
      }
      feeds := feeds - {key};
    }
  }

  /** Ownership does not depend on what a job holds. */
  lemma SameLegsSameOwners(jobs: JobTable, id: string, entry: JobEntry)
    requires id in jobs && jobs[id].pair == entry.pair
    ensures Owned(jobs[id := entry]) == Owned(jobs)
  {
    OwnedAfterSet(jobs, id, entry);
  }

  lemma OwnedAfterSet(jobs: JobTable, id: string, entry: JobEntry)
    ensures Owned(jobs[id := entry]) == Owned(jobs - {id}) + {entry.pair.a, entry.pair.b}
    ensures id in jobs ==> Owned(jobs) == Owned(jobs - {id}) + {jobs[id].pair.a, jobs[id].pair.b}
  {
    var set_, cut := jobs[id := entry], jobs - {id};
    assert forall k :: k in cut ==> set_[k] == cut[k] && jobs[k] == cut[k];
    assert forall k :: k in set_ ==> k == id || k in cut;
    assert forall k :: k in jobs ==> k == id || k in cut;
    assert set_[id] == entry;
  }

  lemma OperationKeepsOwnership(r: Registry, op: Op, defaults: Pair)
    requires r.feeds == Owned(r.jobs)
    ensures Apply(r, op, defaults).feeds == Owned(Apply(r, op, defaults).jobs)
  {
    hide Owned, Patched;
    match op
    case Create(id, patch, found) =>
      if id !in r.jobs {
        OwnedAfterSet(r.jobs, id, JobEntry(Patched(defaults, patch), found));
        assert r.jobs - {id} == r.jobs;
      }
    case Delete(id) =>
      if id in r.jobs { OwnedAfterSet(r.jobs, id, r.jobs[id]); }
    case Update(id, patch) =>
      if id in r.jobs { OwnedAfterSet(r.jobs, id, JobEntry(Patched(r.jobs[id].pair, patch), NOTHING_HELD)); }
  }

  /** After any sequence of creates, deletes and config updates the running feeds are exactly the
      legs of the live jobs: none is missing and none is left behind. */
  lemma {:induction false} FeedsAreOwned(r: Registry, ops: seq<Op>, defaults: Pair)
    requires r.feeds == Owned(r.jobs)
    ensures ApplyAll(r, ops, defaults).feeds == Owned(ApplyAll(r, ops, defaults).jobs)
    decreases ops
  {
    hide Owned, Apply;
    if ops != [] {
      OperationKeepsOwnership(r, ops[0], defaults);
      FeedsAreOwned(Apply(r, ops[0], defaults), ops[1..], defaults);
    }
  }

  /** An update of a known job gives it the legs the patch names and leaves it the others; the same for
      a new job and the defaults. Other jobs are not touched. */
  lemma PatchTakesEffect(r: Registry, id: string, patch: LegPatch, found: Held, defaults: Pair, other: string)
    ensures var op := if id in r.jobs then Update(id, patch) else Create(id, patch, found);
            var before := if id in r.jobs then r.jobs[id].pair else defaults;
            var after := Apply(r, op, defaults).jobs;
            && id in after
            && (forall x :: patch.exchangeA == Some(x) ==> after[id].pair.a.exchange == x)
            && (forall x :: patch.instrumentA == Some(x) ==> after[id].pair.a.instrument == x)
            && (forall x :: patch.exchangeB == Some(x) ==> after[id].pair.b.exchange == x)
            && (forall x :: patch.instrumentB == Some(x) ==> after[id].pair.b.instrument == x)
            && (patch.exchangeA.None? ==> after[id].pair.a.exchange == before.a.exchange)
            && (patch.instrumentA.None? ==> after[id].pair.a.instrument == before.a.instrument)
            && (patch.exchangeB.None? ==> after[id].pair.b.exchange == before.b.exchange)
            && (patch.instrumentB.None? ==> after[id].pair.b.instrument == before.b.instrument)
            && (id in r.jobs && after[id].pair == before ==> after[id].held == r.jobs[id].held)
            && (id !in r.jobs ==> after[id].held == found)
            && (id in r.jobs && after[id].pair != before ==> after[id].held == Held(false, None, None, None, Idle))
            && (other != id && other in r.jobs ==> other in after && after[other] == r.jobs[other])
  {
    hide Owned;
  }

  /** A deleted job is gone and the others stay; a delete of an unknown job and a create of a known one
      change nothing. */
  lemma DeleteRemovesOne(r: Registry, id: string, patch: LegPatch, found: Held, defaults: Pair)
    ensures var after := Apply(r, Delete(id), defaults);
            && after.jobs.Keys == r.jobs.Keys - {id}
            && (forall other :: other in after.jobs ==> after.jobs[other] == r.jobs[other])
            && (id !in r.jobs ==> after == r)
    ensures id in r.jobs ==> Apply(r, Create(id, patch, found), defaults) == r
  {
    hide Owned;
  }
}
