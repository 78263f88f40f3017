/** The gold-spread bot as an object (app/gold_spread_bot.py). Each method is what one coroutine
    does between two awaits; a method that continues a coroutine takes the awaited result. Every
    method is proved to be the matching step of GoldSpreadRuns. */
module GoldSpreadBot {
  import opened Wrappers
  import opened Books
  import opened GoldSpread
  import opened GoldSpreadRuns

  /** The bot's fields, and the coroutines the event loop runs for it: `loops` and `dying` are its
      monitor loops, `starts` and `stops` its waiting start() and stop() calls. */
  class GoldSpreadBot {
    var cfg: Config
    const clientKnown: bool
    var state: Phase
    var position: Option<Position>
    var running: bool
    var signalCount: int
    var lastSignal: SignalKind
    var liveHistory: seq<real>
    var disk: Disk
    var loopTask: Option<nat>
    var loops: map<nat, Handler>
    var created: nat
    var dying: set<nat>
    var starts: seq<Sync>
    var stops: seq<nat>
    ghost var exposure: Exposure
    ghost var fault: bool

    ghost function View(): Bot
      reads this
    {
      Bot(cfg, clientKnown, state, position, running, Signals(signalCount, lastSignal, liveHistory), disk,
          exposure, fault)
    }

    ghost function Everything(): System
      reads this
    {
      System(View(), loops, created, loopTask, dying, starts, stops)
    }

    constructor (cfg: Config, clientKnown: bool)
      ensures Everything() == Fresh(cfg, clientKnown)
    {
      this.cfg, this.clientKnown := cfg, clientKnown;
      state, position, running := IDLE, None, false;
      signalCount, lastSignal, liveHistory := 0, NONE, [];
      disk := Disk(IDLE, None);
      loopTask, loops, created, dying, starts, stops := None, map[], 0, {}, [], [];
      exposure, fault := FLAT, false;
    }

    /** _save_state. */
    method SaveState()
      modifies `disk
      ensures View() == Saved(old(View()))
    {
      disk := Disk(state, position);
    }

    method ClearSignals()
      modifies `signalCount, `lastSignal
      ensures View() == old(View()).(signals := ResetSignals(old(View()).signals))
    {
      signalCount, lastSignal := 0, NONE;
    }

    // -------------------------------------------------------------------------
    // Lifecycle
    // -------------------------------------------------------------------------

    /** The end of start(): create_task, save. */
    method Launch()
      modifies `loops, `created, `loopTask, `disk
      ensures Everything() == Launched(old(Everything()), old(View()))
    {
      loops := loops[created := Checking];
      loopTask := Some(created);
      created := created + 1;
      SaveState();
    }

    /** start() up to the position sync, or to its end when there is nothing to sync with. */
    method Start() returns (accepted: bool)
      modifies this
      ensures Everything() == OnStartCalled(old(Everything()))
      ensures accepted <==> !old(running)
    {
      if running {
        return false;
      }
      running := true;
      if position.Some? {
        state := HOLDING;
      } else {
        state := MONITORING;
      }
      if !cfg.simulation && clientKnown {
        starts := starts + [Asked];
      } else {
        Launch();
      }
      return true;
    }

    /** The k-th waiting start() gets a truthful answer to its position request. */
    method ReadPositions(k: nat, answer: Exposure)
      requires k < |starts| && answer == exposure
      modifies `starts
      ensures Everything() == Step(old(Everything()), PositionsRead(k))
    {
      starts := starts[k := Read(answer)];
    }

    /** The k-th waiting start() goes on: it syncs on what it has read, if anything, and launches. */
    method FinishStart(k: nat, paxgPrice: real, xautPrice: real)
      requires k < |starts|
      modifies this
      ensures Everything() == OnStartReturned(old(Everything()), k, paxgPrice, xautPrice)
    {
      hide Synced;
      var read := starts[k];
      starts := Without(starts, k);
      if read.Read? {
        SyncPositions(read.exposure.paxg, read.exposure.xaut, paxgPrice, xautPrice);
      }
      Launch();
    }

    /** _sync_positions_from_exchange on signed sizes. */
    method SyncPositions(paxgSize: real, xautSize: real, paxgPrice: real, xautPrice: real)
      modifies `position, `state, `disk, `fault
      ensures View() == Synced(old(View()), Exposure(paxgSize, xautSize), paxgPrice, xautPrice)
    {
      ghost var before := position;
      Reconcile(paxgSize, xautSize, paxgPrice, xautPrice);
      fault := if Exposure(paxgSize, xautSize) != exposure then fault || position != before
               else fault && Exposure(paxgSize, xautSize) != FLAT && position == before;
    }

    method Reconcile(paxgSize: real, xautSize: real, paxgPrice: real, xautPrice: real)
      modifies `position, `state, `disk
      ensures View() == Reconciled(old(View()), Exposure(paxgSize, xautSize), paxgPrice, xautPrice)
    {
      if paxgSize == 0.0 && xautSize == 0.0 {
        if position.Some? {
          position := None;
          state := MONITORING;
          SaveState();
        }
        return;
      }
      if position.None? {
        if paxgSize < 0.0 && xautSize > 0.0 {
          AdoptPosition(Position(PaxgPremium, PAXG, -paxgSize, paxgPrice, XAUT, xautSize, xautPrice, false));
        } else if xautSize < 0.0 && paxgSize > 0.0 {
          AdoptPosition(Position(XautPremium, XAUT, -xautSize, xautPrice, PAXG, paxgSize, paxgPrice, false));
        }
      }
    }

    /** _adopt_position. */
    method AdoptPosition(p: Position)
      modifies `position, `state, `disk
      ensures View() == Saved(old(View()).(pos := Some(p), state := HOLDING))
    {
      position := Some(p);
      state := HOLDING;
      SaveState();
    }

    /** stop() up to its await, or to its end when there is no loop to wait for. */
    method Stop() returns (accepted: bool)
      modifies this
      ensures Everything() == OnStopCalled(old(Everything()))
      ensures accepted <==> old(running)
    {
      if !running {
        return false;
      }
      hide Quit;
      running := false;
      QuitLoop();
      return true;
    }

    method QuitLoop()
      modifies `loops, `dying, `stops, `fault, `loopTask, `state, `disk
      ensures Everything() == Quit(old(Everything()))
    {
      hide Halted, PastOrders;
      if loopTask.Some? && loopTask.value in loops {
        Cancel(loopTask.value);
      }
      if loopTask.Some? && loopTask.value in dying {
        stops := stops + [loopTask.value];
      } else {
        Halt();
      }
    }

    /** task.cancel(): loop i runs no more code; orders it has out may still fill. */
    method Cancel(i: nat)
      requires i in loops
      modifies `loops, `dying, `fault
      ensures loops == old(loops) - {i} && dying == old(dying) + {i}
      ensures fault == (old(fault) || PastOrders(old(loops)[i]))
    {
      fault := fault || PastOrders(loops[i]);
      loops := loops - {i};
      dying := dying + {i};
    }

    /** A cancelled loop has ended. */
    method LoopHasEnded(i: nat)
      modifies `dying
      ensures Everything() == Step(old(Everything()), LoopEnded(i))
    {
      dying := dying - {i};
    }

    /** The k-th waiting stop() goes on, its loop having ended. */
    method FinishStop(k: nat)
      requires k < |stops| && stops[k] !in dying
      modifies this
      ensures Everything() == OnStopReturned(old(Everything()), k)
    {
      stops := Without(stops, k);
      Halt();
    }

    /** The end of stop(). */
    method Halt()
      modifies `loopTask, `state, `disk
      ensures loopTask == None && View() == Halted(old(View()))
    {
      loopTask := None;
      state := if position.None? then IDLE else HOLDING;
      SaveState();
    }

    /** reset(), at any time and whatever the loops are doing. */
    method Reset()
      modifies `state, `position, `signalCount, `lastSignal, `disk, `fault
      ensures View() == Cleared(old(View()))
    {
      fault := fault || IsLive(position);
      position := None;
      ClearSignals();
      state := if !running then IDLE else MONITORING;
      SaveState();
    }

    /** update_config when at least one value was applied. */
    method UpdateConfig(updated: Config)
      modifies `cfg, `signalCount, `lastSignal, `disk
      ensures View() == Configured(old(View()), updated)
    {
      cfg := updated;
      ClearSignals();
      SaveState();
    }

    // -------------------------------------------------------------------------
    // Ticks and signals
    // -------------------------------------------------------------------------

    /** _evaluate. */
    method Evaluate(snap: Snapshot) returns (signal: SignalKind)
      modifies `signalCount, `lastSignal
      ensures var r := Confirmed(old(View()).signals, RawSignal(old(View()), snap), cfg.confirmations);
              signal == r.0 && Signals(signalCount, lastSignal, liveHistory) == r.1
    {
      hide PositionExitSpread;
      var raw := NONE;
      if state == HOLDING {
        var positionExit := PositionExitSpread(position, snap);
        raw := if positionExit <= cfg.exitSpread then EXIT else HOLD;
      } else if state == MONITORING || state == IDLE {
        raw := if snap.execSpread >= cfg.entrySpread then ENTRY else HOLD;
      }
      if raw == ENTRY || raw == EXIT {
        if raw == lastSignal {
          signalCount := signalCount + 1;
        } else {
          lastSignal := raw;
          signalCount := 1;
        }
        if signalCount >= cfg.confirmations {
          return raw;
        }
        return HOLD;
      } else {
        lastSignal := raw;
        signalCount := 0;
        return raw;
      }
    }

    /** The test at the head of _monitor_loop: loop i fetches a snapshot, or ends. */
    method CheckRunning(i: nat)
      requires i in loops && loops[i].Checking?
      modifies `loops
      ensures Everything() == OnChecked(old(Everything()), i)
    {
      loops := if running then loops[i := Fetching] else loops - {i};
    }

    /** One iteration of loop i that got a snapshot. */
    method MonitorTick(i: nat, snap: Snapshot)
      requires i in loops && loops[i].Fetching?
      modifies this
      ensures (View(), loops) == AfterTurn(old(View()), old(loops), i, Ticked(snap))
    {
      hide RawSignal, Confirmed, BeginEntry, BeginExit;
      var signal := Evaluate(snap);
      liveHistory := liveHistory + [snap.execSpread];
      if |liveHistory| > LIVE_HISTORY_MAX {
        liveHistory := liveHistory[|liveHistory| - LIVE_HISTORY_MAX..];
      }
      var h := Checking;
      if signal == ENTRY && state == MONITORING {
        h := HandleEntrySignal(snap);
      } else if signal == EXIT && state == HOLDING {
        h := HandleExitSignal();
      }
      loops := loops[i := h];
    }

    /** The feed gave no snapshot: loop i sleeps. */
    method MissedSnapshot(i: nat)
      requires i in loops && loops[i].Fetching?
      modifies `loops
      ensures (View(), loops) == AfterTurn(old(View()), old(loops), i, NoSnapshot)
    {
      loops := loops[i := Checking];
    }

    // -------------------------------------------------------------------------
    // Entry handler
    // -------------------------------------------------------------------------

    /** _handle_entry_signal up to its first await. */
    method HandleEntrySignal(snap: Snapshot) returns (h: Handler)
      modifies `state, `position, `disk, `signalCount, `lastSignal
      ensures (View(), h) == BeginEntry(old(View()), snap)
    {
      hide TooVolatile;
      state := ENTERING;
      if TooVolatile(cfg, liveHistory) {
        ClearSignals();
        state := MONITORING;
        return Checking;
      }
      ClearSignals();
      var d := snap.direction;
      if cfg.simulation {
        position := Some(Position(d, ShortToken(d), cfg.quantity, ShortPrice(snap),
                                  LongToken(d), cfg.quantity, LongPrice(snap), true));
        state := HOLDING;
        SaveState();
        return Checking;
      }
      if !clientKnown {
        state := ERROR;
        return Checking;
      }
      return EntryRefresh;
    }

    /** The refreshed snapshot decides direction and guards; the orders go out. */
    method EntryRefreshed(i: nat, latest: Option<Snapshot>)
      requires i in loops && loops[i].EntryRefresh?
      modifies this
      ensures (View(), loops) == AfterTurn(old(View()), old(loops), i, Refreshed(latest))
    {
      if latest.None? {
        state, loops := MONITORING, loops[i := Checking];
        return;
      }
      var snap := latest.value;
      if snap.execSpread < cfg.entrySpread {
        state, loops := MONITORING, loops[i := Checking];
        return;
      }
      var notional := cfg.quantity * Max(ShortPrice(snap), LongPrice(snap));
      if notional > cfg.maxPositionValueUsd {
        state, loops := MONITORING, loops[i := Checking];
        return;
      }
      loops := loops[i := EntryOrders(snap.direction)];
    }

    /** After the two orders: nothing, one-sided, both, or a timeout that hides what filled. */
    method EntryOrdersReturned(i: nat, outcome: PairOutcome)
      requires i in loops && loops[i].EntryOrders? && Possible(outcome)
      modifies this
      ensures (View(), loops) == AfterTurn(old(View()), old(loops), i, EntryOrdersDone(outcome))
    {
      hide Misreported;
      var d := loops[i].direction;
      exposure := exposure.Plus(ShortToken(d), -outcome.shortFilled).Plus(LongToken(d), outcome.longFilled);
      fault := fault || Misreported(outcome);
      if outcome.Unreported? {
        loops := loops[i := EntrySweep(d)];
        return;
      }
      var shortOk, longOk := outcome.shortTraded > 0.0, outcome.longTraded > 0.0;
      if shortOk && longOk {
        loops := loops[i := EntryVerify(d, outcome.shortTraded, outcome.longTraded)];
        return;
      }
      if shortOk && !longOk {
        loops := loops[i := EntryOneSided(ShortToken(d), -outcome.shortTraded)];
        return;
      }
      if longOk && !shortOk {
        loops := loops[i := EntryOneSided(LongToken(d), outcome.longTraded)];
        return;
      }
      state, loops := MONITORING, loops[i := Checking];
    }

    /** Real fill prices: record the position, or unwind a bad fill. */
    method EntryVerified(i: nat, shortFill: real, longFill: real)
      requires i in loops && loops[i].EntryVerify?
      modifies this
      ensures (View(), loops) == AfterTurn(old(View()), old(loops), i, FillsVerified(shortFill, longFill))
    {
      var d, s, l := loops[i].direction, loops[i].shortTraded, loops[i].longTraded;
      var actualSpread := shortFill - longFill;
      var minAcceptable := cfg.entrySpread * cfg.minActualSpreadRatio;
      if actualSpread < minAcceptable {
        loops := loops[i := EntryBadFill(d, s, l)];
        return;
      }
      position := Some(Position(d, ShortToken(d), s, shortFill, LongToken(d), l, longFill, false));
      state, loops := HOLDING, loops[i := Checking];
      SaveState();
    }

    /** Both unwinds of a badly filled entry have ended; the bot stays flat either way. */
    method BadFillUnwound(i: nat, shortOk: bool, longOk: bool)
      requires i in loops && loops[i].EntryBadFill?
      modifies this
      ensures (View(), loops) == AfterTurn(old(View()), old(loops), i, Unwound(shortOk, longOk))
    {
      hide Back;
      var h := loops[i];
      exposure := Back(exposure, ShortToken(h.direction), h.shortTraded, shortOk);
      exposure := Back(exposure, LongToken(h.direction), -h.longTraded, longOk);
      fault := fault || !shortOk || !longOk;
      state, loops := MONITORING, loops[i := Checking];
    }

    /** The unwind of the one leg that filled has ended; the bot stays flat either way. */
    method OneSidedUnwound(i: nat, ok: bool)
      requires i in loops && loops[i].EntryOneSided?
      modifies this
      ensures (View(), loops) == AfterTurn(old(View()), old(loops), i, Unwound(ok, ok))
    {
      hide Back;
      exposure := Back(exposure, loops[i].token, -loops[i].traded, ok);
      fault := fault || !ok;
      state, loops := MONITORING, loops[i := Checking];
    }

    // -------------------------------------------------------------------------
    // Exit handler
    // -------------------------------------------------------------------------

    /** _handle_exit_signal up to its first await. */
    method HandleExitSignal() returns (h: Handler)
      modifies `state, `position, `disk, `signalCount, `lastSignal, `fault
      ensures (View(), h) == BeginExit(old(View()))
    {
      if position.None? {
        state := MONITORING;
        return Checking;
      }
      state := EXITING;
      ClearSignals();
      if position.value.simulation || cfg.simulation {
        fault := fault || IsLive(position);
        position := None;
        state := MONITORING;
        SaveState();
        return Checking;
      }
      if !clientKnown {
        state := HOLDING;
        return Checking;
      }
      return ExitRefresh(position.value);
    }

    /** Prices refreshed or not, the close orders go out. */
    method ExitRefreshed(i: nat, latest: Option<Snapshot>)
      requires i in loops && loops[i].ExitRefresh?
      modifies `loops
      ensures (View(), loops) == AfterTurn(old(View()), old(loops), i, Refreshed(latest))
    {
      loops := loops[i := ExitOrders(loops[i].pos)];
    }

    /** After the close orders, or their timeout. */
    method ExitOrdersReturned(i: nat, closes: CloseOutcome)
      requires i in loops && loops[i].ExitOrders?
      modifies `loops, `exposure, `fault
      ensures (View(), loops) == AfterTurn(old(View()), old(loops), i, ExitOrdersDone(closes))
    {
      hide Back;
      var p := loops[i].pos;
      exposure := Back(exposure, p.shortToken, p.shortQty, closes.shortClosed);
      exposure := Back(exposure, p.longToken, -p.longQty, closes.longClosed);
      if !closes.inTime {
        loops := loops[i := ExitSweep(p)];
      } else if closes.shortReported && closes.longReported {
        fault := fault || !closes.shortClosed || !closes.longClosed;
        loops := loops[i := ExitSettle(p)];
      } else {
        loops := loops[i := ExitRepair(p, closes.shortReported, closes.longReported)];
      }
    }

    /** Fees and funding have been read: the position is gone. */
    method ExitSettled(i: nat)
      requires i in loops && loops[i].ExitSettle?
      modifies this
      ensures (View(), loops) == AfterTurn(old(View()), old(loops), i, Settled)
    {
      position := None;
      state, loops := MONITORING, loops[i := Checking];
      SaveState();
    }

    /** The legs that did not close were re-fired with wider slippage; a sweep follows. */
    method ExitRepaired(i: nat, shortOk: bool, longOk: bool)
      requires i in loops && loops[i].ExitRepair?
      modifies `loops, `exposure
      ensures (View(), loops) == AfterTurn(old(View()), old(loops), i, Unwound(shortOk, longOk))
    {
      var h := loops[i];
      if !h.shortReported {
        exposure := Refired(exposure, h.pos.shortToken, shortOk);
      }
      if !h.longReported {
        exposure := Refired(exposure, h.pos.longToken, longOk);
      }
      loops := loops[i := ExitSweep(h.pos)];
    }

    // -------------------------------------------------------------------------
    // Shared
    // -------------------------------------------------------------------------

    /** _sweep_after_timeout has ended; entry stays flat, exit clears the position regardless. */
    method SweepReturned(i: nat, fetched: bool, shortOk: bool, longOk: bool)
      requires i in loops && (loops[i].EntrySweep? || loops[i].ExitSweep?)
      modifies this
      ensures (View(), loops) == AfterTurn(old(View()), old(loops), i, SweepDone(fetched, shortOk, longOk))
    {
      hide SweepFailed, Swept;
      var h := loops[i];
      if h.EntrySweep? {
        SweepAfterTimeout(ShortToken(h.direction), LongToken(h.direction), fetched, shortOk, longOk);
      } else {
        SweepAfterTimeout(h.pos.shortToken, h.pos.longToken, fetched, shortOk, longOk);
        position := None;
      }
      state, loops := MONITORING, loops[i := Checking];
      if h.ExitSweep? {
        SaveState();
      }
    }

    /** _sweep_after_timeout: read both legs, unwind a short found on one and a long on the other. */
    method SweepAfterTimeout(shortToken: Token, longToken: Token, fetched: bool, shortOk: bool, longOk: bool)
      modifies `exposure, `fault
      ensures exposure == Swept(old(exposure), shortToken, longToken, fetched, shortOk, longOk)
      ensures fault == (old(fault) || SweepFailed(old(exposure), shortToken, longToken, fetched, shortOk, longOk))
    {
      fault := fault || SweepFailed(exposure, shortToken, longToken, fetched, shortOk, longOk);
      if fetched {
        ghost var read := exposure;
        if read.At(shortToken) < 0.0 {
          exposure := Back(exposure, shortToken, -read.At(shortToken), shortOk);
        }
        if read.At(longToken) > 0.0 {
          exposure := Back(exposure, longToken, -read.At(longToken), longOk);
        }
      }
    }

    /** An exception ends the handler; the monitor loop goes on with the state as it is. */
    method HandlerFailed(i: nat)
      requires i in loops
      modifies `loops, `fault
      ensures (View(), loops) == AfterTurn(old(View()), old(loops), i, HandlerRaised)
    {
      fault := fault || PastOrders(loops[i]);
      loops := loops[i := Checking];
    }

    /** _load_state: an unreadable position is dropped, and with it a HOLDING state. */
    method LoadState(schemaOk: bool)
      modifies `state, `position
      ensures position == if schemaOk then disk.pos else None
      ensures state == if !schemaOk && disk.pos.Some? && disk.state == HOLDING then IDLE else disk.state
    {
      state := disk.state;
      position := None;
      if disk.pos.Some? {
        if schemaOk {
          position := disk.pos;
        } else if state == HOLDING {
          state := IDLE;
        }
      }
    }

    /** __init__ before the load: nothing runs, nothing waits. */
    method Initialise()
      modifies `running, `signalCount, `lastSignal, `liveHistory, `loopTask, `loops, `dying, `starts, `stops
      ensures !running && signalCount == 0 && lastSignal == NONE && liveHistory == []
      ensures loopTask == None && loops == map[] && dying == {} && starts == [] && stops == []
    {
      running, signalCount, lastSignal, liveHistory := false, 0, NONE, [];
      loopTask, loops, dying, starts, stops := None, map[], {}, [], [];
    }

    /** A new process: __init__, then the persisted copy. */
    method Reload(schemaOk: bool)
      modifies this
      ensures View() == Reloaded(old(View()), old(Interrupted(Everything())), schemaOk)
      ensures loopTask == None && loops == map[] && dying == {} && starts == [] && stops == []
      ensures created == old(created)
    {
      hide PastOrders, IsLive, Interrupted;
      fault := fault || Interrupted(Everything()) || (!schemaOk && IsLive(position));
      Initialise();
      LoadState(schemaOk);
    }
  }
}
