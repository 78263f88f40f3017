/** The gold-spread bot over whole runs (app/gold_spread_bot.py): start and stop calls that wait for
    an exchange read or for a cancelled loop, resets, restarts, and the turns of every live monitor
    loop, in any order. No lock guards the calls, so they may overlap. */
module GoldSpreadRuns {
  import opened Wrappers
  import opened GoldSpread

  /** A start() that waits for its position sync; the read may be older than its return. */
  datatype Sync = Asked | Read(exposure: Exposure)

  /** `loops` are the live monitor loops, `dying` the cancelled ones that have not ended yet.
      `loopTask` is the bot's own handle, which may name a loop of either kind, an ended one or none.
      `stops` holds the loop each waiting stop() has cancelled. */
  datatype System = System(
    bot: Bot, loops: map<nat, Handler>, created: nat, loopTask: Option<nat>,
    dying: set<nat>, starts: seq<Sync>, stops: seq<nat>)

  datatype Event =
    | ConfigUpdated(cfg: Config)
    | StartCalled
    | PositionsRead(start: nat)
    | StartReturned(start: nat, paxgEntryPrice: real, xautEntryPrice: real)
    | StopCalled
    | LoopEnded(dead: nat)
    | StopReturned(stop: nat)
    | ResetCalled
    | Checked(loop: nat)
    | LoopTurn(loop: nat, event: LoopEvent)
    | Restarted(schemaOk: bool)

  // ---------------------------------------------------------------------------
  // What the calls do to the bot's fields
  // ---------------------------------------------------------------------------

  function Configured(b: Bot, cfg: Config): Bot { Saved(b.(cfg := cfg, signals := ResetSignals(b.signals))) }

  function Begun(b: Bot): Bot { b.(running := true, state := if b.pos.Some? then HOLDING else MONITORING) }

  function Halted(b: Bot): Bot { Saved(b.(state := if b.pos.Some? then HOLDING else IDLE)) }

  function Cleared(b: Bot): Bot {
    Saved(b.(pos := None, signals := ResetSignals(b.signals), state := if b.running then MONITORING else IDLE,
             fault := b.fault || IsLive(b.pos)))
  }

  function Reloaded(b: Bot, interrupted: bool, schemaOk: bool): Bot {
    b.(state := if !schemaOk && b.disk.pos.Some? && b.disk.state.HOLDING? then IDLE else b.disk.state,
       pos := if schemaOk then b.disk.pos else None, running := false, signals := Signals(0, NONE, []),
       fault := b.fault || interrupted || (!schemaOk && IsLive(b.pos)))
  }

  /** _adopt_position. */
  function Adopted(b: Bot, d: Direction, read: Exposure, paxgEntryPrice: real, xautEntryPrice: real): Bot {
    var price := (t: Token) => if t.PAXG? then paxgEntryPrice else xautEntryPrice;
    var s, l := ShortToken(d), LongToken(d);
    Saved(b.(pos := Some(Position(d, s, -read.At(s), price(s), l, read.At(l), price(l), false)), state := HOLDING))
  }

  /** _sync_positions_from_exchange on what it read. */
  function Reconciled(b: Bot, read: Exposure, paxgEntryPrice: real, xautEntryPrice: real): Bot {
    if read == FLAT then (if b.pos.Some? then Saved(b.(pos := None, state := MONITORING)) else b)
    else if b.pos.Some? then b
    else if read.paxg < 0.0 && read.xaut > 0.0 then Adopted(b, PaxgPremium, read, paxgEntryPrice, xautEntryPrice)
    else if read.xaut < 0.0 && read.paxg > 0.0 then Adopted(b, XautPremium, read, paxgEntryPrice, xautEntryPrice)
    else b
  }

  /** The position changed on an outdated read, or a current read has put things right. */
  function Synced(b: Bot, read: Exposure, paxgEntryPrice: real, xautEntryPrice: real): Bot {
    var c := Reconciled(b, read, paxgEntryPrice, xautEntryPrice);
    c.(fault := if read != b.exposure then b.fault || c.pos != b.pos
                else b.fault && read != FLAT && c.pos == b.pos)
  }

  // ---------------------------------------------------------------------------
  // Steps
  // ---------------------------------------------------------------------------

  function Launched(y: System, b: Bot): System {
    y.(bot := Saved(b), loops := y.loops[y.created := Checking], created := y.created + 1,
       loopTask := Some(y.created))
  }

  /** Only a live start with a client waits for the exchange. */
  predicate SyncsFirst(b: Bot) { !b.cfg.simulation && b.clientKnown }

  function OnStartCalled(y: System): System {
    if y.bot.running then y
    else if SyncsFirst(y.bot) then y.(bot := Begun(y.bot), starts := y.starts + [Asked])
    else Launched(y, Begun(y.bot))
  }

  /** A start that has read nothing returns because its fetch failed. */
  function OnStartReturned(y: System, k: nat, paxgEntryPrice: real, xautEntryPrice: real): System {
    if k >= |y.starts| then y
    else
      var b := if y.starts[k].Asked? then y.bot
               else Synced(y.bot, y.starts[k].exposure, paxgEntryPrice, xautEntryPrice);
      Launched(y.(starts := Without(y.starts, k)), b)
  }

  /** The bot's handle names a live loop. */
  predicate NamesLiveLoop(y: System) { y.loopTask.Some? && y.loopTask.value in y.loops }

  /** Cancel the loop and wait for it, or end at once when there is none to wait for. */
  function Quit(y: System): System {
    if NamesLiveLoop(y) then
      var i := y.loopTask.value;
      y.(bot := y.bot.(fault := y.bot.fault || PastOrders(y.loops[i])), loops := y.loops - {i},
         dying := y.dying + {i}, stops := y.stops + [i])
    else if y.loopTask.Some? && y.loopTask.value in y.dying then y.(stops := y.stops + [y.loopTask.value])
    else y.(bot := Halted(y.bot), loopTask := None)
  }

  function OnStopCalled(y: System): System {
    if !y.bot.running then y else Quit(y.(bot := y.bot.(running := false)))
  }

  function OnStopReturned(y: System, k: nat): System {
    if k >= |y.stops| || y.stops[k] in y.dying then y
    else y.(bot := Halted(y.bot), loopTask := None, stops := Without(y.stops, k))
  }

  /** The test of `while self._running`. */
  function OnChecked(y: System, i: nat): System {
    if i !in y.loops || !y.loops[i].Checking? then y
    else if y.bot.running then y.(loops := y.loops[i := Fetching])
    else y.(loops := y.loops - {i})
  }

  /** Loop i takes a turn; the other loops stay where they are. */
  function AfterTurn(b: Bot, loops: map<nat, Handler>, i: nat, e: LoopEvent): (Bot, map<nat, Handler>)
    requires i in loops
  {
    var t := Turn(b, loops[i], e);
    (t.0, loops[i := t.1])
  }

  function OnLoopTurn(y: System, i: nat, e: LoopEvent): System {
    if i !in y.loops then y
    else
      var t := AfterTurn(y.bot, y.loops, i, e);
      y.(bot := t.0, loops := t.1)
  }

  predicate Interrupted(y: System) { exists i :: i in y.loops && PastOrders(y.loops[i]) }

  /** One event. An event that cannot happen in the current state changes nothing. */
  function Step(y: System, e: Event): System {
    match e
    case ConfigUpdated(cfg) => y.(bot := Configured(y.bot, cfg))
    case StartCalled => OnStartCalled(y)
    case PositionsRead(k) => if k < |y.starts| then y.(starts := y.starts[k := Read(y.bot.exposure)]) else y
    case StartReturned(k, p, x) => OnStartReturned(y, k, p, x)
    case StopCalled => OnStopCalled(y)
    case LoopEnded(i) => y.(dying := y.dying - {i})
    case StopReturned(k) => OnStopReturned(y, k)
    case ResetCalled => y.(bot := Cleared(y.bot))
    case Checked(i) => OnChecked(y, i)
    case LoopTurn(i, event) => OnLoopTurn(y, i, event)
    case Restarted(schemaOk) =>
      System(Reloaded(y.bot, Interrupted(y), schemaOk), map[], y.created, None, {}, [], [])
  }

  function Run(y: System, events: seq<Event>): System
    decreases events
  {
    if events == [] then y else Run(Step(y, events[0]), events[1..])
  }

  function Fresh(cfg: Config, clientKnown: bool): System {
    System(Bot(cfg, clientKnown, IDLE, None, false, Signals(0, NONE, []), Disk(IDLE, None), FLAT, false),
           map[], 0, None, {}, [], [])
  }

  // ---------------------------------------------------------------------------
  // What holds whatever overlaps
  // ---------------------------------------------------------------------------

  ghost predicate Numbered(y: System) { forall i :: i in y.loops ==> i < y.created }

  ghost predicate Shaped(y: System) {
    ShapedBot(y.bot) && forall i :: i in y.loops ==> ShapedHandler(y.loops[i])
  }

  lemma LoopTurnKeepsShape(y: System, i: nat, e: LoopEvent)
    requires Shaped(y)
    ensures Shaped(OnLoopTurn(y, i, e))
  {
    hide ShapedBot, ShapedHandler, Turn;
    if i in y.loops { TurnKeepsShape(y.bot, y.loops[i], e); }
  }

  lemma CallKeepsShape(y: System, e: Event)
    requires Shaped(y) && !e.LoopTurn?
    ensures Shaped(Step(y, e))
  {
    hide Turn;
  }

  lemma StepKeepsShape(y: System, e: Event)
    requires Shaped(y)
    ensures Shaped(Step(y, e))
  {
    hide Shaped;
    if e.LoopTurn? { LoopTurnKeepsShape(y, e.loop, e.event); } else { CallKeepsShape(y, e); }
  }

  lemma StepKeepsNumbers(y: System, e: Event)
    requires Numbered(y)
    ensures Numbered(Step(y, e))
  {
    hide Turn, Reconciled, Synced;
  }

  lemma SyncLeavesSignals(b: Bot, read: Exposure, paxgEntryPrice: real, xautEntryPrice: real)
    ensures var after := Synced(b, read, paxgEntryPrice, xautEntryPrice);
            after.signals == b.signals && after.cfg == b.cfg
  {
  }

  lemma CallsLeaveSignals(y: System, e: Event)
    requires !e.LoopTurn?
    ensures var after := Step(y, e).bot;
            after.signals == Signals(0, NONE, y.bot.signals.history) || after.signals == Signals(0, NONE, [])
            || (after.signals == y.bot.signals && after.cfg == y.bot.cfg)
  {
    hide Turn, Synced;
    if e.StartReturned? && e.start < |y.starts| && y.starts[e.start].Read? {
      SyncLeavesSignals(y.bot, y.starts[e.start].exposure, e.paxgEntryPrice, e.xautEntryPrice);
    }
  }

  lemma StepKeepsConfirming(y: System, e: Event)
    requires Confirming(y.bot)
    ensures Confirming(Step(y, e).bot)
  {
    hide Confirming, Turn;
    if e.LoopTurn? {
      if e.loop in y.loops { TurnKeepsConfirming(y.bot, y.loops[e.loop], e.event); }
    } else {
      CallsLeaveSignals(y, e);
      UntouchedKeepsConfirming(y.bot, Step(y, e).bot);
    }
  }

  lemma {:induction false} AlwaysInShape(y: System, events: seq<Event>)
    requires Numbered(y) && Shaped(y) && Confirming(y.bot)
    ensures Numbered(Run(y, events)) && Shaped(Run(y, events)) && Confirming(Run(y, events).bot)
    decreases events
  {
    hide Numbered, Shaped, Confirming, Step;
    if events != [] {
      StepKeepsNumbers(y, events[0]);
      StepKeepsShape(y, events[0]);
      StepKeepsConfirming(y, events[0]);
      AlwaysInShape(Step(y, events[0]), events[1..]);
    }
  }

  /** This snapshot makes loop i call the entry handler. */
  predicate StartsEntry(y: System, i: nat, s: Snapshot) {
    && i in y.loops && y.loops[i].Fetching? && y.bot.state.MONITORING?
    && Confirmed(y.bot.signals, RawSignal(y.bot, s), y.bot.cfg.confirmations).0.ENTRY?
  }

  lemma FreshIsConfirming(cfg: Config, clientKnown: bool)
    ensures Confirming(Fresh(cfg, clientKnown).bot) && Shaped(Fresh(cfg, clientKnown))
  {
  }

  /** At any point of any run, with any number of loops: when an entry handler is called with 2 to
      720 confirmations, the window its stability gate looks at consists of the confirming ticks
      alone. The window is full, every spread in it reaches the entry threshold, and so does their
      mean; in particular the gate is never skipped for a threshold of at least 10^-9. */
  lemma EntryWindowIsConfirmed(cfg: Config, clientKnown: bool, events: seq<Event>, i: nat, s: Snapshot)
    requires StartsEntry(Run(Fresh(cfg, clientKnown), events), i, s)
    requires 2 <= Run(Fresh(cfg, clientKnown), events).bot.cfg.confirmations <= 720
    ensures var b := Run(Fresh(cfg, clientKnown), events).bot;
            var h, n := Recorded(b.signals.history, s.execSpread), b.cfg.confirmations;
            && n <= |h| && (forall k :: |h| - n <= k < |h| ==> h[k] >= b.cfg.entrySpread)
            && Sum(h[|h| - n..]) / n as real >= b.cfg.entrySpread
            && (b.cfg.entrySpread >= 0.000000001 ==>
                  WindowMean(b.cfg, h).Some? && WindowMean(b.cfg, h).value >= b.cfg.entrySpread)
  {
    hide Run, RawSignal, Confirmed, Recorded, Sum, WindowMean, Confirming, Shaped;
    FreshIsConfirming(cfg, clientKnown);
    AlwaysInShape(Fresh(cfg, clientKnown), events);
    ConfirmedWindow(Run(Fresh(cfg, clientKnown), events).bot, s);
  }

  /** At any point of any run the exit test bounds the closing profit from above: EXIT is raised
      exactly when closing now earns at most the entry spread plus the configured exit spread. */
  lemma ExitSignalMeans(cfg: Config, clientKnown: bool, events: seq<Event>, s: Snapshot)
    ensures var b := Run(Fresh(cfg, clientKnown), events).bot;
            b.state.HOLDING? && b.pos.Some? ==>
              (RawSignal(b, s).EXIT?
               <==> ClosePnl(b.pos.value, s)
                      <= (b.pos.value.shortEntryPrice - b.pos.value.longEntryPrice) + b.cfg.exitSpread)
  {
    hide RawSignal, ClosePnl;
    var b := Run(Fresh(cfg, clientKnown), events).bot;
    AlwaysInShape(Fresh(cfg, clientKnown), events);
    if b.state.HOLDING? && b.pos.Some? { ExitBoundsProfit(b, s); }
  }

  // ---------------------------------------------------------------------------
  // Runs with at most one live loop
  // ---------------------------------------------------------------------------

  ghost predicate AtMostOne(y: System) { forall i, j :: i in y.loops && j in y.loops ==> i == j }

  ghost predicate OneLoopThroughout(y: System, events: seq<Event>)
    decreases events
  {
    AtMostOne(y) && (events != [] ==> OneLoopThroughout(Step(y, events[0]), events[1..]))
  }

  /** The fields are sound for the one live loop; without a loop, as for one that does nothing. */
  ghost predicate SoundSystem(y: System) {
    (y.loops == map[] ==> Sound(y.bot, Checking)) && forall i :: i in y.loops ==> Sound(y.bot, y.loops[i])
  }

  lemma CallsKeepSound(b: Bot, h: Handler, cfg: Config)
    requires Sound(b, h)
    ensures Sound(Configured(b, cfg), h) && Sound(Begun(b), h) && Sound(Halted(b), h) && Sound(Cleared(b), h)
    ensures Sound(b.(running := false), h)
  {
  }

  lemma CancelKeepsSound(b: Bot, h: Handler)
    requires Sound(b, h)
    ensures Sound(b.(running := false, fault := b.fault || PastOrders(h)), Checking)
  {
  }

  lemma ReloadKeepsSound(b: Bot, h: Handler, schemaOk: bool)
    requires Sound(b, h)
    ensures Sound(Reloaded(b, PastOrders(h), schemaOk), Checking)
  {
  }

  lemma SyncKeepsSound(b: Bot, read: Exposure, paxgEntryPrice: real, xautEntryPrice: real)
    requires Sound(b, Checking)
    ensures Sound(Saved(Synced(b, read, paxgEntryPrice, xautEntryPrice)), Checking) && Sound(Saved(b), Checking)
  {
  }

  lemma LoopTurnKeepsSound(y: System, i: nat, e: LoopEvent)
    requires AtMostOne(y) && SoundSystem(y)
    ensures SoundSystem(OnLoopTurn(y, i, e))
  {
    hide Sound, Turn;
    if i in y.loops {
      TurnKeepsSound(y.bot, y.loops[i], e);
      assert i in OnLoopTurn(y, i, e).loops;
    }
  }

  lemma StartKeepsSound(y: System, e: Event)
    requires AtMostOne(y) && SoundSystem(y) && Numbered(y)
    requires e.StartCalled? || e.StartReturned?
    requires AtMostOne(Step(y, e))
    ensures SoundSystem(Step(y, e))
  {
    hide Sound, Synced, Begun, Saved;
    var z := Step(y, e);
    if y.loops == map[] {
      CallsKeepSound(y.bot, Checking, y.bot.cfg);
      SyncKeepsSound(Begun(y.bot), FLAT, 0.0, 0.0);
      if e.StartReturned? && e.start < |y.starts| {
        var s := y.starts[e.start];
        SyncKeepsSound(y.bot, if s.Read? then s.exposure else FLAT, e.paxgEntryPrice, e.xautEntryPrice);
      }
    } else {
      var i :| i in y.loops;
      CallsKeepSound(y.bot, y.loops[i], y.bot.cfg);
      assert i in z.loops && (y.created in z.loops ==> i == y.created);
    }
  }

  lemma StopKeepsSound(y: System, e: Event)
    requires AtMostOne(y) && SoundSystem(y)
    requires e.StopCalled? || e.StopReturned? || e.LoopEnded? || e.Checked?
    ensures SoundSystem(Step(y, e))
  {
    hide Sound, Halted;
    if y.loops == map[] {
      CallsKeepSound(y.bot, Checking, y.bot.cfg);
      CallsKeepSound(y.bot.(running := false), Checking, y.bot.cfg);
    } else {
      var i :| i in y.loops;
      CallsKeepSound(y.bot, y.loops[i], y.bot.cfg);
      CallsKeepSound(y.bot.(running := false), y.loops[i], y.bot.cfg);
      CancelKeepsSound(y.bot, y.loops[i]);
      if e.Checked? && e.loop == i && y.loops[i].Checking? { IdleIsIdle(y.bot); }
    }
  }

  lemma IdleIsIdle(b: Bot)
    ensures Sound(b, Checking) <==> Sound(b, Fetching)
  {
  }

  lemma OtherCallsKeepSound(y: System, e: Event)
    requires AtMostOne(y) && SoundSystem(y)
    requires e.ConfigUpdated? || e.PositionsRead? || e.ResetCalled? || e.Restarted?
    ensures SoundSystem(Step(y, e))
  {
    hide Sound, Configured, Cleared, Reloaded, PastOrders;
    var cfg := if e.ConfigUpdated? then e.cfg else y.bot.cfg;
    var schemaOk := e.Restarted? && e.schemaOk;
    if y.loops == map[] {
      CallsKeepSound(y.bot, Checking, cfg);
      ReloadKeepsSound(y.bot, Checking, schemaOk);
      IdleIsNotPastOrders();
    } else {
      var i :| i in y.loops;
      CallsKeepSound(y.bot, y.loops[i], cfg);
      ReloadKeepsSound(y.bot, y.loops[i], schemaOk);
      assert Interrupted(y) == PastOrders(y.loops[i]);
    }
  }

  lemma IdleIsNotPastOrders()
    ensures !PastOrders(Checking)
  {
  }

  lemma StepKeepsSound(y: System, e: Event)
    requires AtMostOne(y) && SoundSystem(y) && Numbered(y) && AtMostOne(Step(y, e))
    ensures SoundSystem(Step(y, e))
  {
    hide SoundSystem, Numbered, AtMostOne, OnLoopTurn;
    match e
    case LoopTurn(i, event) => LoopTurnKeepsSound(y, i, event);
    case StartCalled => StartKeepsSound(y, e);
    case StartReturned(_, _, _) => StartKeepsSound(y, e);
    case StopCalled => StopKeepsSound(y, e);
    case StopReturned(_) => StopKeepsSound(y, e);
    case LoopEnded(_) => StopKeepsSound(y, e);
    case Checked(_) => StopKeepsSound(y, e);
    case _ => OtherCallsKeepSound(y, e);
  }

  lemma {:induction false} RunKeepsSound(y: System, events: seq<Event>)
    requires SoundSystem(y) && Numbered(y) && OneLoopThroughout(y, events)
    ensures SoundSystem(Run(y, events)) && Numbered(Run(y, events)) && AtMostOne(Run(y, events))
    decreases events
  {
    hide SoundSystem, Numbered, AtMostOne, Step;
    if events != [] {
      assert OneLoopThroughout(Step(y, events[0]), events[1..]) ==> AtMostOne(Step(y, events[0]));
      StepKeepsNumbers(y, events[0]);
      StepKeepsSound(y, events[0]);
      RunKeepsSound(Step(y, events[0]), events[1..]);
    }
  }

  /** Over every interleaving with at most one live loop: HOLDING implies a recorded position, and a
      position exists only in HOLDING or EXITING, in memory and on disk. */
  lemma ControlAlwaysHolds(cfg: Config, clientKnown: bool, events: seq<Event>)
    requires OneLoopThroughout(Fresh(cfg, clientKnown), events)
    ensures var b := Run(Fresh(cfg, clientKnown), events).bot;
            Coherent(b.state, b.pos) && Coherent(b.disk.state, b.disk.pos)
  {
    hide ExposureAt, Coherent, AtMostOne;
    FreshIsSound(cfg, clientKnown);
    RunKeepsSound(Fresh(cfg, clientKnown), events);
    var y := Run(Fresh(cfg, clientKnown), events);
    if y.loops != map[] {
      var i :| i in y.loops;
      assert Sound(y.bot, y.loops[i]);
    }
  }

  lemma FreshIsSound(cfg: Config, clientKnown: bool)
    ensures SoundSystem(Fresh(cfg, clientKnown)) && Numbered(Fresh(cfg, clientKnown))
    ensures AtMostOne(Fresh(cfg, clientKnown))
  {
  }

  /** So no entry ever overwrites a position: none is recorded while an entry is under way, and none
      when a tick starts one. */
  lemma EntryNeverOverwrites(cfg: Config, clientKnown: bool, events: seq<Event>, i: nat, s: Snapshot)
    requires OneLoopThroughout(Fresh(cfg, clientKnown), events)
    requires i in Run(Fresh(cfg, clientKnown), events).loops
    ensures var y := Run(Fresh(cfg, clientKnown), events);
            IsEntry(y.loops[i]) || StartsEntry(y, i, s) ==> y.bot.pos.None?
  {
    hide ExposureAt, AtMostOne, Confirmed, RawSignal;
    FreshIsSound(cfg, clientKnown);
    RunKeepsSound(Fresh(cfg, clientKnown), events);
    var y := Run(Fresh(cfg, clientKnown), events);
    assert Sound(y.bot, y.loops[i]);
  }

  /** Whenever no signal handler is running and no fault was raised, the exchange holds exactly the
      legs of the recorded live position, and nothing when there is none. */
  lemma ExposureMatchesPosition(cfg: Config, clientKnown: bool, events: seq<Event>)
    requires OneLoopThroughout(Fresh(cfg, clientKnown), events)
    ensures var y := Run(Fresh(cfg, clientKnown), events);
            !y.bot.fault && (forall i :: i in y.loops ==> IsIdle(y.loops[i])) ==> y.bot.exposure == LegsOf(y.bot.pos)
  {
    hide LegsOf, Coherent, AtMostOne;
    FreshIsSound(cfg, clientKnown);
    RunKeepsSound(Fresh(cfg, clientKnown), events);
    var y := Run(Fresh(cfg, clientKnown), events);
    if y.loops != map[] {
      var i :| i in y.loops;
      assert Sound(y.bot, y.loops[i]);
    }
  }

  /** Everything that can make the exchange disagree with the bot: entry orders that report something
      else than they fill, two reported closes of which one did not happen, a failed unwind or
      position read of a handler, a handler interrupted after its orders were sent, a live position dropped by a
      reset or by an unreadable state file, a live position closed in simulation mode, and a start
      that acts on a position read that is out of date. */
  predicate FaultCause(y: System, e: Event) {
    match e
    case LoopTurn(i, event) => i in y.loops && TurnFaultCause(y.bot, y.loops[i], event)
    case StopCalled => y.bot.running && NamesLiveLoop(y) && PastOrders(y.loops[y.loopTask.value])
    case StartReturned(k, _, _) => k < |y.starts| && y.starts[k].Read? && y.starts[k].exposure != y.bot.exposure
    case ResetCalled => IsLive(y.bot.pos)
    case Restarted(schemaOk) => Interrupted(y) || (!schemaOk && IsLive(y.bot.pos))
    case _ => false
  }

  predicate TurnFaultCause(b: Bot, h: Handler, e: LoopEvent) {
    match e
    case EntryOrdersDone(outcome) => h.EntryOrders? && Misreported(outcome)
    case ExitOrdersDone(o) =>
      h.ExitOrders? && o.inTime && o.shortReported && o.longReported && (!o.shortClosed || !o.longClosed)
    case Unwound(shortOk, longOk) => (h.EntryBadFill? && (!shortOk || !longOk)) || (h.EntryOneSided? && !shortOk)
    case SweepDone(fetched, shortOk, longOk) => (h.EntrySweep? || h.ExitSweep?) && (!fetched || !shortOk || !longOk)
    case HandlerRaised => PastOrders(h)
    case Ticked(_) => b.cfg.simulation && IsLive(b.pos)
    case _ => false
  }

  lemma TurnFaultsHaveACause(b: Bot, h: Handler, e: LoopEvent)
    requires !b.fault && Turn(b, h, e).0.fault
    ensures TurnFaultCause(b, h, e)
  {
    hide TooVolatile, Swept, Back, Recorded, Confirmed, RawSignal;
  }

  lemma FaultsHaveACause(y: System, e: Event)
    requires !y.bot.fault && Step(y, e).bot.fault
    ensures FaultCause(y, e)
  {
    hide Turn, TurnFaultCause, Reconciled;
    if e.LoopTurn? { TurnFaultsHaveACause(y.bot, y.loops[e.loop], e.event); }
  }

  /** After a live start returns with a current read, the exchange holds what is recorded exactly
      when it is flat, or holds a hedge while none is recorded, or already held what is recorded;
      and the fault is gone in the first two cases. */
  lemma StartRepairsExactlyWhen(y: System, k: nat, paxgEntryPrice: real, xautEntryPrice: real)
    requires k < |y.starts| && y.starts[k] == Read(y.bot.exposure)
    ensures var x, after := y.bot.exposure, Step(y, StartReturned(k, paxgEntryPrice, xautEntryPrice)).bot;
            var repaired := x == FLAT || (y.bot.pos.None? && x.paxg * x.xaut < 0.0);
            && (after.exposure == LegsOf(after.pos) <==> repaired || x == LegsOf(y.bot.pos))
            && (after.fault <==> y.bot.fault && !repaired)
  {
    OppositeSigns(y.bot.exposure.paxg, y.bot.exposure.xaut);
  }

  lemma OppositeSigns(x: real, y: real)
    ensures x * y < 0.0 <==> (x < 0.0 && y > 0.0) || (x > 0.0 && y < 0.0)
  {
    if x < 0.0 && y > 0.0 {
      assert (-x) * y > 0.0;
    } else if x > 0.0 && y < 0.0 {
      assert x * (-y) > 0.0;
    } else if x <= 0.0 && y <= 0.0 {
      assert (-x) * (-y) >= 0.0;
    }
  }

  // ---------------------------------------------------------------------------
  // What the calls leave
  // ---------------------------------------------------------------------------

  /** An accepted start runs and holds or monitors by whether a position is recorded. With a client, and
      not in simulation, it waits for the exchange before its loop exists; otherwise the loop is there. */
  lemma StartLeaves(y: System)
    ensures y.bot.running ==> Step(y, StartCalled) == y
    ensures !y.bot.running ==>
              var z := Step(y, StartCalled);
              && z.bot.running && z.bot.pos == y.bot.pos
              && z.bot.state == (if y.bot.pos.Some? then HOLDING else MONITORING)
              && (if !y.bot.cfg.simulation && y.bot.clientKnown then
                    z.starts == y.starts + [Asked] && z.loops == y.loops
                  else
                    && z.loops == y.loops[y.created := Checking] && z.loopTask == Some(y.created)
                    && z.starts == y.starts)
  {
  }

  /** A stop that has nothing to wait for, and one whose loop has ended, leave the handle empty and the
      bot holding or idle by whether a position is recorded, in memory and on disk. A reset leaves a bot
      without a position that monitors or is idle by whether it runs. */
  lemma StopAndResetLeave(y: System, k: nat)
    ensures y.bot.running && y.loopTask.None? ==>
              var z := Step(y, StopCalled);
              && !z.bot.running && z.loopTask.None? && z.bot.pos == y.bot.pos
              && z.bot.state == (if y.bot.pos.Some? then HOLDING else IDLE)
              && z.bot.disk == Disk(z.bot.state, z.bot.pos)
    ensures k < |y.stops| && y.stops[k] !in y.dying ==>
              var z := Step(y, StopReturned(k));
              && z.loopTask.None? && z.bot.pos == y.bot.pos && z.bot.running == y.bot.running
              && z.bot.state == (if y.bot.pos.Some? then HOLDING else IDLE)
              && z.bot.disk == Disk(z.bot.state, z.bot.pos)
    ensures var z := Step(y, ResetCalled);
            z.bot.pos.None? && z.bot.state == (if y.bot.running then MONITORING else IDLE)
            && z.bot.disk == Disk(z.bot.state, None) && z.bot.signals.count == 0 && z.loops == y.loops
    ensures !y.bot.running ==> Step(y, StopCalled) == y
  {
  }

  /** A hedge found on the exchange is adopted with the exchange's sizes and each token's own entry
      price, and held. */
  lemma AdoptionRecordsTheExchange(b: Bot, read: Exposure, paxgEntryPrice: real, xautEntryPrice: real)
    requires b.pos.None? && read.paxg * read.xaut < 0.0
    ensures var after := Reconciled(b, read, paxgEntryPrice, xautEntryPrice);
            && after.pos.Some? && after.state.HOLDING? && after.disk == Disk(HOLDING, after.pos)
            && LegsOf(after.pos) == read
            && (read.paxg < 0.0 ==>
                  after.pos.value.direction.PaxgPremium? && after.pos.value.shortEntryPrice == paxgEntryPrice
                  && after.pos.value.longEntryPrice == xautEntryPrice)
            && (read.xaut < 0.0 ==>
                  after.pos.value.direction.XautPremium? && after.pos.value.shortEntryPrice == xautEntryPrice
                  && after.pos.value.longEntryPrice == paxgEntryPrice)
  {
    OppositeSigns(read.paxg, read.xaut);
  }

  /** A new process has what was persisted, does not run, and drops an unreadable position. */
  lemma RestartLeaves(y: System, schemaOk: bool)
    ensures var z := Step(y, Restarted(schemaOk));
            && !z.bot.running && z.loops == map[] && z.loopTask.None? && z.starts == [] && z.stops == []
            && z.bot.signals == Signals(0, NONE, []) && z.bot.exposure == y.bot.exposure && z.bot.disk == y.bot.disk
            && z.bot.pos == (if schemaOk then y.bot.disk.pos else None)
            && (schemaOk || y.bot.disk.pos.None? || !y.bot.disk.state.HOLDING? ==> z.bot.state == y.bot.disk.state)
            && (!schemaOk && y.bot.disk.pos.Some? && y.bot.disk.state.HOLDING? ==> z.bot.state.IDLE?)
  {
  }

  /** A read that shows nothing drops a recorded position for good and goes back to monitoring; one that
      shows a position on one token only, or a hedge beside a recorded position, changes nothing. */
  lemma OtherReadsLeave(b: Bot, read: Exposure, paxgEntryPrice: real, xautEntryPrice: real)
    ensures var after := Reconciled(b, read, paxgEntryPrice, xautEntryPrice);
            && (read.paxg == 0.0 && read.xaut == 0.0 && b.pos.Some? ==>
                  after.pos.None? && after.state.MONITORING? && after.disk == Disk(MONITORING, None))
            && (read.paxg == 0.0 && read.xaut == 0.0 && b.pos.None? ==> after == b)
            && (b.pos.Some? && (read.paxg != 0.0 || read.xaut != 0.0) ==> after == b)
            && (b.pos.None? && read.paxg * read.xaut >= 0.0 ==> after == b)
  {
  }
}
