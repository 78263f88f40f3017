/** Overlapping start() and stop() calls of the gold-spread bot (app/gold_spread_bot.py): exactly when
    they lead to two live monitor loops, and what two loops can do. */
module GoldSpreadOverlaps {
  import opened Wrappers
  import opened GoldSpread
  import opened GoldSpreadRuns

  // ---------------------------------------------------------------------------
  // When a second loop arises
  // ---------------------------------------------------------------------------

  /** This event creates a monitor loop. */
  predicate Launches(y: System, e: Event) {
    (e.StartReturned? && e.start < |y.starts|) || (e.StartCalled? && !y.bot.running && !SyncsFirst(y.bot))
  }

  /** In one step: exactly when a start creates its loop while another one is alive. */
  lemma SecondLoopArises(y: System, e: Event)
    requires AtMostOne(y) && Numbered(y)
    ensures !AtMostOne(Step(y, e)) <==> Launches(y, e) && y.loops != map[]
  {
    hide Turn, Synced, Begun, Halted;
    var z := Step(y, e);
    if Launches(y, e) {
      assert y.created in z.loops;
      if y.loops != map[] {
        var i :| i in y.loops;
        assert i in z.loops && i != y.created;
      }
    } else {
      assert forall i :: i in z.loops ==> i in y.loops;
    }
  }

  /** Live loops, and starts that will create one. */
  function Claims(y: System): nat { |y.loops| + |y.starts| }

  lemma SizeAfterSet(m: map<nat, Handler>, i: nat, h: Handler)
    ensures |m[i := h]| == if i in m then |m| else |m| + 1
    ensures |m - {i}| == if i in m then |m| - 1 else |m|
  {
    assert m[i := h].Keys == m.Keys + {i} && (m - {i}).Keys == m.Keys - {i};
  }

  lemma FewClaimsMeanOneLoop(y: System)
    requires Claims(y) <= 1
    ensures AtMostOne(y) && (y.loops == map[] || y.starts == [])
  {
    forall i, j | i in y.loops && j in y.loops ensures i == j {
      if i != j { SubsetSize({i, j}, y.loops.Keys); }
    }
    if y.loops != map[] {
      var i :| i in y.loops;
      SubsetSize({i}, y.loops.Keys);
    }
  }

  lemma {:induction false} SubsetSize(a: set<nat>, b: set<nat>)
    requires a <= b
    ensures |a| <= |b|
  {
    assert b == a + (b - a);
  }

  /** A start that is accepted while a loop is alive or another start is waiting. */
  predicate Overtakes(y: System, e: Event) {
    e.StartCalled? && !y.bot.running && (y.loops != map[] || y.starts != [])
  }

  /** The reads of waiting starts still hold. */
  ghost predicate ReadsAreCurrent(y: System) {
    forall k :: 0 <= k < |y.starts| && y.starts[k].Read? ==> y.starts[k].exposure == y.bot.exposure
  }

  lemma StartKeepsClaims(y: System, e: Event)
    requires Claims(y) <= 1 && !Overtakes(y, e)
    requires e.StartCalled? || e.StartReturned?
    ensures Claims(Step(y, e)) <= 1
  {
    hide Synced, Begun;
    SizeAfterSet(y.loops, y.created, Checking);
  }

  lemma StopKeepsClaims(y: System)
    ensures Claims(Step(y, StopCalled)) <= Claims(y)
  {
    hide Halted;
    if NamesLiveLoop(y) { SizeAfterSet(y.loops, y.loopTask.value, Checking); }
  }

  lemma CheckKeepsClaims(y: System, i: nat)
    ensures Claims(OnChecked(y, i)) <= Claims(y)
  {
    SizeAfterSet(y.loops, i, Fetching);
  }

  lemma TurnKeepsClaims(y: System, i: nat, e: LoopEvent)
    ensures Claims(OnLoopTurn(y, i, e)) == Claims(y)
  {
    hide Turn;
    if i in y.loops { SizeAfterSet(y.loops, i, Turn(y.bot, y.loops[i], e).1); }
  }

  lemma OtherEventsKeepClaims(y: System, e: Event)
    requires e.ConfigUpdated? || e.PositionsRead? || e.LoopEnded? || e.StopReturned? || e.ResetCalled? || e.Restarted?
    ensures Claims(Step(y, e)) <= Claims(y)
  {
    hide Configured, Cleared, Halted, Reloaded;
  }

  lemma StepKeepsClaims(y: System, e: Event)
    requires Claims(y) <= 1 && !Overtakes(y, e)
    ensures Claims(Step(y, e)) <= 1
  {
    hide Claims, OnStartCalled, OnStartReturned, OnStopCalled, OnStopReturned, OnChecked, OnLoopTurn, Overtakes;
    hide Configured, Cleared, Reloaded;
    match e
    case StartCalled => StartKeepsClaims(y, e);
    case StartReturned(_, _, _) => StartKeepsClaims(y, e);
    case StopCalled => StopKeepsClaims(y);
    case Checked(i) => CheckKeepsClaims(y, i);
    case LoopTurn(i, event) => TurnKeepsClaims(y, i, event);
    case _ => OtherEventsKeepClaims(y, e);
  }

  lemma StepKeepsReads(y: System, e: Event)
    requires Claims(y) <= 1 && !Overtakes(y, e) && ReadsAreCurrent(y)
    ensures ReadsAreCurrent(Step(y, e))
  {
    hide Turn;
    FewClaimsMeanOneLoop(y);
  }

  /** A start right after a stop, before that stop has returned: it overtakes exactly when the stop
      found another start still waiting, or a live loop that the bot's handle no longer names. */
  lemma StartAfterStopOvertakesExactlyWhen(y: System)
    requires Claims(y) <= 1 && y.bot.running
    ensures Overtakes(Step(y, StopCalled), StartCalled)
       <==> y.starts != [] || (y.loops != map[] && !NamesLiveLoop(y))
  {
    FewClaimsMeanOneLoop(y);
    if NamesLiveLoop(y) {
      assert forall i :: i in y.loops ==> i == y.loopTask.value;
      assert y.loops - {y.loopTask.value} == map[];
    }
  }

  ghost predicate Orderly(y: System, events: seq<Event>)
    decreases events
  {
    events != [] ==> !Overtakes(y, events[0]) && Orderly(Step(y, events[0]), events[1..])
  }

  /** When no accepted start overtakes a live loop or a waiting start, there is never a second loop
      and no start ever acts on an outdated read. Stops may come at any time, also while a start
      waits, and a start may come while a stop waits for the loop it has cancelled. */
  lemma {:induction false} OrderlyRunsHaveOneLoop(y: System, events: seq<Event>)
    requires Claims(y) <= 1 && ReadsAreCurrent(y) && Orderly(y, events)
    ensures OneLoopThroughout(y, events)
    ensures Claims(Run(y, events)) <= 1 && ReadsAreCurrent(Run(y, events))
    decreases events
  {
    hide Claims, ReadsAreCurrent, Step, AtMostOne, Overtakes;
    FewClaimsMeanOneLoop(y);
    if events != [] {
      StepKeepsClaims(y, events[0]);
      StepKeepsReads(y, events[0]);
      OrderlyRunsHaveOneLoop(Step(y, events[0]), events[1..]);
    }
  }

  /** Two loops that both go on. */
  ghost predicate TwoLoops(y: System) { y.bot.running && !AtMostOne(y) }

  predicate NoFurtherCall(events: seq<Event>) {
    forall i :: 0 <= i < |events| ==> !events[i].StartCalled? && !events[i].StopCalled?
  }

  lemma {:induction false} WithoutCallsOneLoop(y: System, events: seq<Event>)
    requires Claims(y) <= 1 && NoFurtherCall(events)
    ensures AtMostOne(Run(y, events))
    decreases events
  {
    hide Claims, Step, AtMostOne;
    if events == [] {
      FewClaimsMeanOneLoop(y);
    } else {
      StepKeepsClaims(y, events[0]);
      assert NoFurtherCall(events[1..]) by {
        assert forall i :: 0 <= i < |events[1..]| ==> events[1..][i] == events[i + 1];
      }
      WithoutCallsOneLoop(Step(y, events[0]), events[1..]);
    }
  }

  /** The sync of a waiting start fails and the start returns. */
  const RETURNS := StartReturned(0, 0.0, 0.0)

  lemma ReturnsLaunch(y: System)
    requires y.starts != [] && Numbered(y)
    ensures var z := Step(y, RETURNS);
            && z.bot.running == y.bot.running && z.starts == y.starts[1..] && Numbered(z)
            && z.loops.Keys == y.loops.Keys + {y.created} && y.created !in y.loops
  {
    assert Without(y.starts, 0) == y.starts[1..];
  }

  lemma RunOne(y: System, e: Event)
    ensures Run(y, [e]) == Step(y, e)
  {
    assert [e][1..] == [];
    assert Run(Step(y, e), []) == Step(y, e);
  }

  lemma RunTwo(y: System, e: Event, f: Event)
    ensures Run(y, [e, f]) == Step(Step(y, e), f)
  {
    hide Step;
    assert [e, f][1..] == [f];
    RunOne(Step(y, e), f);
  }

  lemma OvertakingStartLeadsToTwoLoops(y: System)
    requires Numbered(y) && !y.bot.running && (y.loops != map[] || y.starts != [])
    ensures exists rest :: NoFurtherCall(rest) && TwoLoops(Run(Step(y, StartCalled), rest))
  {
    hide Step, Run;
    var z := Step(y, StartCalled);
    StartKeepsNumbers(y);
    if SyncsFirst(y.bot) {
      ReturnsLaunch(z);
      RunOne(z, RETURNS);
      if y.loops != map[] {
        var i :| i in y.loops;
        assert i in Run(z, [RETURNS]).loops && z.created in Run(z, [RETURNS]).loops;
        assert NoFurtherCall([RETURNS]) && TwoLoops(Run(z, [RETURNS]));
      } else {
        var z1 := Step(z, RETURNS);
        ReturnsLaunch(z1);
        RunTwo(z, RETURNS, RETURNS);
        assert z.created in Step(z1, RETURNS).loops && z1.created in Step(z1, RETURNS).loops;
        assert NoFurtherCall([RETURNS, RETURNS]) && TwoLoops(Run(z, [RETURNS, RETURNS]));
      }
    } else if y.loops != map[] {
      var i :| i in y.loops;
      RunNothing(z);
      assert i in z.loops && y.created in z.loops;
      assert NoFurtherCall([]) && TwoLoops(Run(z, []));
    } else {
      ReturnsLaunch(z);
      RunOne(z, RETURNS);
      assert y.created in Run(z, [RETURNS]).loops && z.created in Run(z, [RETURNS]).loops;
      assert NoFurtherCall([RETURNS]) && TwoLoops(Run(z, [RETURNS]));
    }
  }

  lemma RunNothing(y: System)
    ensures Run(y, []) == y
  {
  }

  lemma StartKeepsNumbers(y: System)
    requires Numbered(y) && !y.bot.running
    ensures var z := Step(y, StartCalled);
            && Numbered(z) && z.bot.running
            && (if SyncsFirst(y.bot) then z.loops == y.loops && z.created == y.created && z.starts == y.starts + [Asked]
                else z.loops == y.loops[y.created := Checking] && z.starts == y.starts && z.created == y.created + 1)
  {
  }

  /** An accepted start can lead to two loops without any further call exactly when, at the call, a
      loop is still alive or another start still waits for its sync. */
  lemma SecondLoopExactlyWhen(y: System)
    requires Claims(y) <= 1 && Numbered(y) && !y.bot.running
    ensures (exists rest :: NoFurtherCall(rest) && TwoLoops(Run(Step(y, StartCalled), rest)))
       <==> y.loops != map[] || y.starts != []
  {
    if y.loops != map[] || y.starts != [] {
      OvertakingStartLeadsToTwoLoops(y);
    } else {
      StepKeepsClaims(y, StartCalled);
      forall rest | NoFurtherCall(rest) ensures AtMostOne(Run(Step(y, StartCalled), rest)) {
        WithoutCallsOneLoop(Step(y, StartCalled), rest);
      }
    }
  }

  /** The exposure theorem for a bot whose starts never overtake. */
  lemma OrderlyExposureMatches(cfg: Config, clientKnown: bool, events: seq<Event>)
    requires Orderly(Fresh(cfg, clientKnown), events)
    ensures var y := Run(Fresh(cfg, clientKnown), events);
            !y.bot.fault && (forall i :: i in y.loops ==> IsIdle(y.loops[i])) ==> y.bot.exposure == LegsOf(y.bot.pos)
  {
    OrderlyRunsHaveOneLoop(Fresh(cfg, clientKnown), events);
    ExposureMatchesPosition(cfg, clientKnown, events);
  }

  // ---------------------------------------------------------------------------
  // What two loops can do
  // ---------------------------------------------------------------------------

  const LIVE := Config(10.0, 2.0, 1.0, 1, 10000.0, 0.0, 0.0, false)

  const WIDE := Snapshot(2012.0, 2013.0, 1999.0, 2000.0, 12.0, -14.0, PaxgPremium)

  const HEDGE := Position(PaxgPremium, PAXG, 1.0, 2012.0, XAUT, 1.0, 2000.0, false)

  /** start, stop during its sync, start again; both syncs return. */
  const TWO_STARTS: seq<Event> :=
    [StartCalled, StopCalled, StartCalled, PositionsRead(0), PositionsRead(1),
     StartReturned(0, 0.0, 0.0), StartReturned(0, 0.0, 0.0)]

  /** Loop i fetches a wide spread, and sends its entry orders. */
  function Enters(i: nat): seq<Event> {
    [Checked(i), LoopTurn(i, Ticked(WIDE)), LoopTurn(i, Refreshed(Some(WIDE)))]
  }

  /** Both orders of loop i fill, and the fills are verified. */
  function Fills(i: nat): seq<Event> {
    [LoopTurn(i, EntryOrdersDone(Reported(1.0, 1.0, 1.0, 1.0))), LoopTurn(i, FillsVerified(2012.0, 2000.0))]
  }

  lemma {:induction false} RunConcat(y: System, a: seq<Event>, b: seq<Event>)
    ensures Run(y, a + b) == Run(Run(y, a), b)
    decreases a
  {
    if a == [] {
      assert a + b == b;
    } else {
      assert (a + b)[1..] == a[1..] + b;
      RunConcat(Step(y, a[0]), a[1..], b);
    }
  }

  lemma RunCons(y: System, e: Event, rest: seq<Event>)
    ensures Run(y, [e] + rest) == Run(Step(y, e), rest)
  {
    assert ([e] + rest)[1..] == rest;
  }

  lemma RunThree(y: System, e: Event, f: Event, g: Event)
    ensures Run(y, [e, f, g]) == Step(Step(Step(y, e), f), g)
  {
    hide Step;
    assert [e, f, g] == [e] + [f, g];
    RunCons(y, e, [f, g]);
    RunTwo(Step(y, e), f, g);
  }

  /** A monitoring bot of the example configuration. */
  predicate Watching(b: Bot) {
    && b.cfg == LIVE && b.clientKnown && b.running && b.state.MONITORING? && b.pos.None?
    && b.signals.count == 0 && b.signals.last.NONE?
  }

  lemma ConfirmsEntry(b: Bot)
    requires Watching(b)
    ensures var (signal, g) := Confirmed(b.signals, RawSignal(b, WIDE), b.cfg.confirmations);
            signal.ENTRY? && g.history == b.signals.history
  {
  }

  lemma LoopEnters(y: System, i: nat)
    requires Watching(y.bot) && i in y.loops && y.loops[i].Checking?
    ensures var z := Run(y, Enters(i));
            && z.loops == y.loops[i := EntryOrders(PaxgPremium)]
            && z.bot.cfg == LIVE && z.bot.running && z.bot.exposure == y.bot.exposure && z.bot.fault == y.bot.fault
            && z.bot.clientKnown && z.bot.pos.None?
  {
    hide Run, Confirmed, RawSignal, Recorded;
    RunThree(y, Checked(i), LoopTurn(i, Ticked(WIDE)), LoopTurn(i, Refreshed(Some(WIDE))));
    ConfirmsEntry(y.bot);
    assert !TooVolatile(LIVE, Recorded(y.bot.signals.history, WIDE.execSpread));
    var z1 := Step(y, Checked(i));
    assert z1.loops == y.loops[i := Fetching] && z1.bot == y.bot;
    var z2 := Step(z1, LoopTurn(i, Ticked(WIDE)));
    assert z2.loops == y.loops[i := EntryRefresh];
  }

  lemma LoopFills(y: System, i: nat)
    requires i in y.loops && y.loops[i] == EntryOrders(PaxgPremium) && y.bot.cfg == LIVE
    ensures var z := Run(y, Fills(i));
            && z.loops == y.loops[i := Checking] && z.bot.pos == Some(HEDGE) && z.bot.fault == y.bot.fault
            && z.bot.exposure == Exposure(y.bot.exposure.paxg - 1.0, y.bot.exposure.xaut + 1.0) && z.bot.cfg == LIVE
  {
    hide Run;
    RunTwo(y, LoopTurn(i, EntryOrdersDone(Reported(1.0, 1.0, 1.0, 1.0))), LoopTurn(i, FillsVerified(2012.0, 2000.0)));
    var z1 := Step(y, LoopTurn(i, EntryOrdersDone(Reported(1.0, 1.0, 1.0, 1.0))));
    assert z1.loops == y.loops[i := EntryVerify(PaxgPremium, 1.0, 1.0)];
  }

  lemma TwoStartsTwoLoops()
    ensures var y := Run(Fresh(LIVE, true), TWO_STARTS);
            Watching(y.bot) && y.loops == map[0 := Checking, 1 := Checking] && y.bot.exposure == FLAT && !y.bot.fault
  {
    hide Run;
    var y := Fresh(LIVE, true);
    assert TWO_STARTS == [StartCalled, StopCalled, StartCalled]
                         + ([PositionsRead(0), PositionsRead(1)]
                            + [StartReturned(0, 0.0, 0.0), StartReturned(0, 0.0, 0.0)]);
    RunConcat(y, [StartCalled, StopCalled, StartCalled],
              [PositionsRead(0), PositionsRead(1)] + [StartReturned(0, 0.0, 0.0), StartReturned(0, 0.0, 0.0)]);
    RunThree(y, StartCalled, StopCalled, StartCalled);
    var y1 := Step(Step(Step(y, StartCalled), StopCalled), StartCalled);
    assert y1.starts == [Asked, Asked] && Watching(y1.bot) && y1.loops == map[];
    RunConcat(y1, [PositionsRead(0), PositionsRead(1)], [StartReturned(0, 0.0, 0.0), StartReturned(0, 0.0, 0.0)]);
    RunTwo(y1, PositionsRead(0), PositionsRead(1));
    var y2 := Step(Step(y1, PositionsRead(0)), PositionsRead(1));
    assert y2.starts == [Read(FLAT), Read(FLAT)];
    RunTwo(y2, RETURNS, RETURNS);
    var y3 := Step(y2, RETURNS);
    assert y3.starts == [Read(FLAT)] && y3.loops == map[0 := Checking];
  }

  /** A reset while loop i's orders are out lets loop j enter as well; then both fill. */
  function DoubleEntry(i: nat, j: nat): seq<Event> {
    [ConfigUpdated(LIVE), ResetCalled] + (Enters(i) + ([ResetCalled] + (Enters(j) + (Fills(i) + Fills(j)))))
  }

  /** Whenever a running bot without a position has two loops between two ticks, some run lets both
      enter: the second entry overwrites the first one's position, and the exchange has moved by
      twice what is recorded, although no unwind and no read has failed. */
  lemma TwoLoopsCanDoubleTheExposure(y: System, i: nat, j: nat)
    requires i != j && i in y.loops && j in y.loops && y.loops[i].Checking? && y.loops[j].Checking?
    requires y.bot.running && y.bot.clientKnown && y.bot.pos.None?
    ensures var z := Run(y, DoubleEntry(i, j));
            && z.bot.fault == y.bot.fault && z.loops == y.loops
            && z.bot.pos == Some(HEDGE) && LegsOf(z.bot.pos) == Exposure(-1.0, 1.0)
            && z.bot.exposure == Exposure(y.bot.exposure.paxg - 2.0, y.bot.exposure.xaut + 2.0)
  {
    hide Run, Step, Watching, Enters, Fills;
    var rest := Enters(i) + ([ResetCalled] + (Enters(j) + (Fills(i) + Fills(j))));
    RunConcat(y, [ConfigUpdated(LIVE), ResetCalled], rest);
    RunTwo(y, ConfigUpdated(LIVE), ResetCalled);
    ConfigureAndReset(y);
    var y1 := Step(Step(y, ConfigUpdated(LIVE)), ResetCalled);
    RunConcat(y1, Enters(i), [ResetCalled] + (Enters(j) + (Fills(i) + Fills(j))));
    LoopEnters(y1, i);
    var y2 := Run(y1, Enters(i));
    RunCons(y2, ResetCalled, Enters(j) + (Fills(i) + Fills(j)));
    ResetMeansWatching(y2);
    var y3 := Step(y2, ResetCalled);
    RunConcat(y3, Enters(j), Fills(i) + Fills(j));
    LoopEnters(y3, j);
    var y4 := Run(y3, Enters(j));
    RunConcat(y4, Fills(i), Fills(j));
    LoopFills(y4, i);
    LoopFills(Run(y4, Fills(i)), j);
  }

  lemma ResetMeansWatching(y: System)
    requires y.bot.cfg == LIVE && y.bot.clientKnown && y.bot.running && y.bot.pos.None?
    ensures var z := Step(y, ResetCalled);
            Watching(z.bot) && z.loops == y.loops && z.bot.exposure == y.bot.exposure && z.bot.fault == y.bot.fault
  {
  }

  lemma ConfigureAndReset(y: System)
    requires y.bot.clientKnown && y.bot.running && y.bot.pos.None?
    ensures var z := Step(Step(y, ConfigUpdated(LIVE)), ResetCalled);
            Watching(z.bot) && z.loops == y.loops && z.bot.exposure == y.bot.exposure && z.bot.fault == y.bot.fault
  {
    ResetMeansWatching(Step(y, ConfigUpdated(LIVE)));
  }

  /** From a new bot: start, stop during its sync, start again, and so on to twice the exposure. */
  lemma OverlappingStartsCanDoubleTheExposure()
    ensures var z := Run(Fresh(LIVE, true), TWO_STARTS + DoubleEntry(0, 1));
            && !z.bot.fault && (forall i :: i in z.loops ==> IsIdle(z.loops[i]))
            && z.bot.exposure == Exposure(-2.0, 2.0) && LegsOf(z.bot.pos) == Exposure(-1.0, 1.0)
  {
    hide Run;
    TwoStartsTwoLoops();
    RunConcat(Fresh(LIVE, true), TWO_STARTS, DoubleEntry(0, 1));
    TwoLoopsCanDoubleTheExposure(Run(Fresh(LIVE, true), TWO_STARTS), 0, 1);
  }

  // ---------------------------------------------------------------------------
  // When exposure and record can part
  // ---------------------------------------------------------------------------

  /** No signal handler is running, no fault was raised, and the exchange does not hold the record. */
  ghost predicate Parted(y: System) {
    !y.bot.fault && (forall i :: i in y.loops ==> IsIdle(y.loops[i])) && y.bot.exposure != LegsOf(y.bot.pos)
  }

  /** A running, fault-free bot none of whose loops is in a handler. */
  predicate AtRest(b: Bot) {
    Sound(b, Checking) && !b.fault && b.running && b.clientKnown && (b.pos.Some? ==> b.state.HOLDING?)
  }

  /** No premium left: a position of the example configuration is closed. */
  const EVEN := Snapshot(2000.0, 2000.0, 2000.0, 2000.0, 0.0, 0.0, PaxgPremium)

  /** Loop i fetches it, and closes the position it finds. */
  function Exits(i: nat, live: bool): seq<Event> {
    [Checked(i), LoopTurn(i, Ticked(EVEN))]
    + if live then
        [LoopTurn(i, CLOSES[0]), LoopTurn(i, CLOSES[1]), LoopTurn(i, CLOSES[2])]
      else []
  }

  lemma TickExits(b: Bot)
    requires AtRest(b) && b.cfg == LIVE && b.signals.count == 0 && b.signals.last.NONE? && b.pos.Some?
    ensures var (after, h) := OnTick(b, EVEN);
            && after.cfg == LIVE && after.running && after.clientKnown && !after.fault
            && after.exposure == b.exposure
            && (if IsLive(b.pos) then h == ExitRefresh(b.pos.value) && after.pos == b.pos
                else h.Checking? && after.pos.None?)
  {
    hide Recorded, LegsOf;
  }

  const CLOSES: seq<LoopEvent> := [Refreshed(None), ExitOrdersDone(CloseOutcome(true, true, true, true, true)), Settled]

  /** A live position is closed by orders that both fill. */
  lemma LoopCloses(y: System, i: nat, p: Position)
    requires i in y.loops && y.loops[i] == ExitRefresh(p) && WellShaped(p) && !p.simulation
    requires y.bot.exposure == LegsOf(Some(p))
    ensures var z := Run(y, [LoopTurn(i, CLOSES[0]), LoopTurn(i, CLOSES[1]), LoopTurn(i, CLOSES[2])]);
            && z.loops == y.loops[i := Checking] && z.bot.pos.None? && z.bot.exposure == FLAT
            && z.bot.fault == y.bot.fault && z.bot.running == y.bot.running && z.bot.clientKnown == y.bot.clientKnown
  {
    hide Run, LegsOf;
    RunThree(y, LoopTurn(i, CLOSES[0]), LoopTurn(i, CLOSES[1]), LoopTurn(i, CLOSES[2]));
    ClosedLegs(p, true, true);
  }

  lemma LoopExits(y: System, i: nat)
    requires AtRest(y.bot) && y.bot.cfg == LIVE && y.bot.signals.count == 0 && y.bot.signals.last.NONE?
    requires y.bot.pos.Some? && i in y.loops && y.loops[i].Checking?
    ensures var z := Run(y, Exits(i, IsLive(y.bot.pos)));
            && z.loops == y.loops && z.bot.pos.None? && z.bot.exposure == FLAT && !z.bot.fault
            && z.bot.running && z.bot.clientKnown
  {
    hide Run, OnTick, Sound;
    var start: seq<Event> := [Checked(i), LoopTurn(i, Ticked(EVEN))];
    RunTwo(y, Checked(i), LoopTurn(i, Ticked(EVEN)));
    TickExits(y.bot);
    AtRestMatches(y.bot);
    var y1 := Run(y, start);
    if IsLive(y.bot.pos) {
      RunConcat(y, start, [LoopTurn(i, CLOSES[0]), LoopTurn(i, CLOSES[1]), LoopTurn(i, CLOSES[2])]);
      LoopCloses(y1, i, y.bot.pos.value);
    } else {
      assert Exits(i, false) == start;
    }
  }

  lemma AtRestMatches(b: Bot)
    requires AtRest(b)
    ensures b.exposure == LegsOf(b.pos) && (b.pos.Some? ==> WellShaped(b.pos.value))
  {
  }

  lemma CallFree(a: seq<Event>, b: seq<Event>)
    requires NoFurtherCall(a) && NoFurtherCall(b)
    ensures NoFurtherCall(a + b)
  {
  }

  /** Two loops between ticks of a flat bot can part exposure and record. */
  lemma FlatLoopsCanPart(y: System, i: nat, j: nat)
    requires i != j && y.loops == map[i := Checking, j := Checking]
    requires y.bot.running && y.bot.clientKnown && y.bot.pos.None? && y.bot.exposure == FLAT && !y.bot.fault
    ensures NoFurtherCall(DoubleEntry(i, j)) && Parted(Run(y, DoubleEntry(i, j)))
  {
    hide Run, DoubleEntry, NoFurtherCall;
    TwoLoopsCanDoubleTheExposure(y, i, j);
    DoubleEntryIsCallFree(i, j);
  }

  /** So can two loops of a bot that holds a position: one closes it first. */
  lemma HoldingLoopsCanPart(y: System, i: nat, j: nat)
    requires AtRest(y.bot) && y.bot.pos.Some? && i != j && y.loops == map[i := Checking, j := Checking]
    ensures var rest := [ConfigUpdated(LIVE)] + Exits(i, IsLive(y.bot.pos)) + DoubleEntry(i, j);
            NoFurtherCall(rest) && Parted(Run(y, rest))
  {
    hide Run, Sound, NoFurtherCall, Parted, Exits, DoubleEntry;
    var live := IsLive(y.bot.pos);
    var y1 := Step(y, ConfigUpdated(LIVE));
    ConfigureAtRest(y.bot);
    LoopExits(y1, i);
    RunCons(y, ConfigUpdated(LIVE), Exits(i, live));
    RunConcat(y, [ConfigUpdated(LIVE)] + Exits(i, live), DoubleEntry(i, j));
    FlatLoopsCanPart(Run(y1, Exits(i, live)), i, j);
    ExitsAreCallFree(i, live);
    CallFree([ConfigUpdated(LIVE)] + Exits(i, live), DoubleEntry(i, j));
  }

  lemma TwoLoopsCanPart(y: System, i: nat, j: nat)
    requires AtRest(y.bot) && i != j && y.loops == map[i := Checking, j := Checking]
    ensures exists rest :: NoFurtherCall(rest) && Parted(Run(y, rest))
  {
    hide Run, Sound, NoFurtherCall, Parted, Exits, DoubleEntry;
    if y.bot.pos.None? {
      AtRestMatches(y.bot);
      FlatLoopsCanPart(y, i, j);
    } else {
      HoldingLoopsCanPart(y, i, j);
    }
  }

  lemma ConfigureAtRest(b: Bot)
    requires AtRest(b)
    ensures AtRest(Configured(b, LIVE)) && Configured(b, LIVE).pos == b.pos
  {
    hide Sound;
    CallsKeepSound(b, Checking, LIVE);
  }

  lemma DoubleEntryIsCallFree(i: nat, j: nat)
    ensures NoFurtherCall(DoubleEntry(i, j))
  {
    var reset: seq<Event> := [ResetCalled];
    CallFree(Fills(i), Fills(j));
    CallFree(Enters(j), Fills(i) + Fills(j));
    CallFree(reset, Enters(j) + (Fills(i) + Fills(j)));
    CallFree(Enters(i), reset + (Enters(j) + (Fills(i) + Fills(j))));
    CallFree([ConfigUpdated(LIVE), ResetCalled], Enters(i) + (reset + (Enters(j) + (Fills(i) + Fills(j)))));
  }

  lemma ExitsAreCallFree(i: nat, live: bool)
    ensures NoFurtherCall([ConfigUpdated(LIVE)] + Exits(i, live))
  {
  }

  // A loop that is in a handler can be brought to rest without a fault.

  function Turns(b: Bot, h: Handler, es: seq<LoopEvent>): (Bot, Handler)
    decreases es
  {
    if es == [] then (b, h)
    else
      var t := Turn(b, h, es[0]);
      Turns(t.0, t.1, es[1..])
  }

  function LoopTurns(i: nat, es: seq<LoopEvent>): seq<Event> {
    if es == [] then [] else [LoopTurn(i, es[0])] + LoopTurns(i, es[1..])
  }

  lemma {:induction false} RunLoopTurns(y: System, i: nat, es: seq<LoopEvent>)
    requires i in y.loops
    ensures var t := Turns(y.bot, y.loops[i], es);
            Run(y, LoopTurns(i, es)) == y.(bot := t.0, loops := y.loops[i := t.1])
    ensures NoFurtherCall(LoopTurns(i, es))
    decreases es
  {
    hide Turn;
    if es == [] {
      assert y.loops[i := y.loops[i]] == y.loops;
    } else {
      RunCons(y, LoopTurn(i, es[0]), LoopTurns(i, es[1..]));
      var z := Step(y, LoopTurn(i, es[0]));
      RunLoopTurns(z, i, es[1..]);
      var t := Turns(z.bot, z.loops[i], es[1..]);
      assert z.loops[i := t.1] == y.loops[i := t.1];
    }
  }

  /** Everything that is still out closes, fills nothing or succeeds. */
  function Finishing(b: Bot, h: Handler): seq<LoopEvent> {
    var closed := ExitOrdersDone(CloseOutcome(true, true, true, true, true));
    match h
    case Checking => []
    case Fetching => [NoSnapshot]
    case EntryRefresh => [Refreshed(None)]
    case EntryOrders(_) => [EntryOrdersDone(Reported(0.0, 0.0, 0.0, 0.0))]
    case EntrySweep(_) => [SweepDone(true, true, true)]
    case EntryVerify(_, _, _) => [FillsVerified(b.cfg.entrySpread * b.cfg.minActualSpreadRatio, 0.0)]
    case EntryBadFill(_, _, _) => [Unwound(true, true)]
    case EntryOneSided(_, _) => [Unwound(true, true)]
    case ExitRefresh(_) => [Refreshed(None)] + [closed] + [Settled]
    case ExitOrders(_) => [closed] + [Settled]
    case ExitSettle(_) => [Settled]
    case ExitRepair(_, _, _) => [Unwound(true, true)] + [SweepDone(true, true, true)]
    case ExitSweep(_) => [SweepDone(true, true, true)]
  }

  lemma TurnsOne(b: Bot, h: Handler, e: LoopEvent)
    ensures Turns(b, h, [e]) == Turn(b, h, e)
  {
    hide Turn;
    assert [e][1..] == [];
  }

  lemma TurnsMore(b: Bot, h: Handler, e: LoopEvent, es: seq<LoopEvent>)
    ensures Turns(b, h, [e] + es) == Turns(Turn(b, h, e).0, Turn(b, h, e).1, es)
  {
    hide Turn;
    assert ([e] + es)[1..] == es;
  }

  lemma {:induction false} TurnsKeepSound(b: Bot, h: Handler, es: seq<LoopEvent>)
    requires Sound(b, h)
    ensures Sound(Turns(b, h, es).0, Turns(b, h, es).1)
    decreases es
  {
    hide Sound, Turn;
    if es != [] {
      TurnKeepsSound(b, h, es[0]);
      TurnsKeepSound(Turn(b, h, es[0]).0, Turn(b, h, es[0]).1, es[1..]);
    }
  }

  /** What finishing a handler leaves alone, and where it ends. */
  predicate Finished(b: Bot, t: (Bot, Handler)) {
    t.1.Checking? && t.0.fault == b.fault && t.0.running == b.running && t.0.clientKnown == b.clientKnown
    && (t.0.pos.Some? ==> t.0.state.HOLDING?)
  }

  lemma EntryFinishes(b: Bot, h: Handler)
    requires IsEntry(h) && b.pos.None?
    ensures Finished(b, Turns(b, h, Finishing(b, h)))
  {
    hide Turns, Turn, Swept;
    TurnsOne(b, h, Finishing(b, h)[0]);
    EntryTurnFinishes(b, h);
  }

  lemma EntryTurnFinishes(b: Bot, h: Handler)
    requires IsEntry(h) && b.pos.None?
    ensures |Finishing(b, h)| == 1 && Finished(b, Turn(b, h, Finishing(b, h)[0]))
  {
    hide Swept, Back;
  }

  lemma ExitFinishes(b: Bot, h: Handler)
    requires !IsEntry(h) && (IsIdle(h) ==> b.pos.Some? ==> b.state.HOLDING?)
    ensures Finished(b, Turns(b, h, Finishing(b, h)))
  {
    hide Turns, Swept, Back, Refired;
    var closed := ExitOrdersDone(CloseOutcome(true, true, true, true, true));
    match h
    case Checking => assert Turns(b, h, []) == (b, h) by { TurnsNone(b, h); }
    case Fetching => TurnsOne(b, h, NoSnapshot);
    case ExitRefresh(p) =>
      assert [Refreshed(None)] + [closed] + [Settled] == [Refreshed(None)] + ([closed] + [Settled]);
      TurnsMore(b, h, Refreshed(None), [closed] + [Settled]);
      OrdersFinish(b, p);
    case ExitOrders(p) => OrdersFinish(b, p);
    case ExitSettle(_) => TurnsOne(b, h, Settled);
    case ExitRepair(p, _, _) =>
      var t := Turn(b, h, Unwound(true, true));
      TurnsMore(b, h, Unwound(true, true), [SweepDone(true, true, true)]);
      TurnsOne(t.0, t.1, SweepDone(true, true, true));
    case ExitSweep(_) => TurnsOne(b, h, SweepDone(true, true, true));
  }

  lemma OrdersFinish(b: Bot, p: Position)
    ensures var closed := ExitOrdersDone(CloseOutcome(true, true, true, true, true));
            Finished(b, Turns(b, ExitOrders(p), [closed] + [Settled]))
  {
    hide Turns, Back;
    var closed := ExitOrdersDone(CloseOutcome(true, true, true, true, true));
    var t := Turn(b, ExitOrders(p), closed);
    TurnsMore(b, ExitOrders(p), closed, [Settled]);
    TurnsOne(t.0, t.1, Settled);
  }

  lemma TurnsNone(b: Bot, h: Handler)
    ensures Turns(b, h, []) == (b, h)
  {
  }

  /** A running, fault-free bot with its one loop anywhere. */
  predicate Underway(b: Bot, h: Handler) {
    Sound(b, h) && !b.fault && b.running && b.clientKnown && (b.pos.Some? ==> b.state.HOLDING?)
  }

  lemma LoopComesToRest(y: System, i: nat)
    requires i in y.loops && Underway(y.bot, y.loops[i])
    ensures var z := Run(y, LoopTurns(i, Finishing(y.bot, y.loops[i])));
            AtRest(z.bot) && z == y.(bot := z.bot, loops := y.loops[i := Checking])
  {
    hide Run, Turns, Finishing;
    var h := y.loops[i];
    var es := Finishing(y.bot, h);
    RunLoopTurns(y, i, es);
    TurnsKeepSound(y.bot, h, es);
    if IsEntry(h) { EntryFinishes(y.bot, h); } else { ExitFinishes(y.bot, h); }
  }

  lemma ReturnKeepsRest(y: System)
    requires AtRest(y.bot) && y.starts != [] && (y.starts[0].Read? ==> y.starts[0].exposure == y.bot.exposure)
    ensures var z := Step(y, RETURNS);
            && AtRest(z.bot) && z.loops == y.loops[y.created := Checking] && z.created == y.created + 1
            && z.starts == y.starts[1..] && z.bot.exposure == y.bot.exposure
  {
    assert Without(y.starts, 0) == y.starts[1..];
    SyncKeepsSound(y.bot, if y.starts[0].Read? then y.starts[0].exposure else FLAT, 0.0, 0.0);
    hide Sound;
  }

  lemma SaveKeepsSound(b: Bot, h: Handler)
    requires Sound(b, h)
    ensures Sound(Saved(b), h)
  {
  }

  /** The start is accepted with the one loop alive. */
  lemma StartUnderALoop(y: System, i: nat)
    requires Numbered(y) && i in y.loops && Sound(y.bot, y.loops[i]) && !y.bot.fault && y.bot.clientKnown
    requires y.loops == map[i := y.loops[i]] && y.starts == [] && !y.bot.running
    ensures exists rest :: NoFurtherCall(rest) && Parted(Run(Step(y, StartCalled), rest))
  {
    hide Run, Sound, Finishing, NoFurtherCall;
    var h, z := y.loops[i], Step(y, StartCalled);
    CallsKeepSound(y.bot, h, y.bot.cfg);
    SaveKeepsSound(Begun(y.bot), h);
    var finish := LoopTurns(i, Finishing(z.bot, h));
    LoopComesToRest(z, i);
    RunLoopTurns(z, i, Finishing(z.bot, h));
    var z1 := Run(z, finish);
    if SyncsFirst(y.bot) {
      ReturnKeepsRest(z1);
      RunOne(z1, RETURNS);
      var z2 := Step(z1, RETURNS);
      assert z2.loops == map[i := Checking, y.created := Checking];
      ExtendParting(z, finish, [RETURNS], i, y.created);
    } else {
      assert z1.loops == map[i := Checking, y.created := Checking];
      RunNothing(z1);
      ExtendParting(z, finish, [], i, y.created);
    }
  }

  lemma ReturnsAreCallFree()
    ensures NoFurtherCall([RETURNS]) && NoFurtherCall([RETURNS, RETURNS]) && NoFurtherCall([])
  {
  }

  lemma ExtendParting(y: System, a: seq<Event>, b: seq<Event>, i: nat, j: nat)
    requires NoFurtherCall(a) && (b == [] || b == [RETURNS] || b == [RETURNS, RETURNS])
    requires var z := Run(Run(y, a), b);
             AtRest(z.bot) && i != j && z.loops == map[i := Checking, j := Checking]
    ensures exists rest :: NoFurtherCall(rest) && Parted(Run(y, rest))
  {
    hide Run, AtRest, NoFurtherCall, Parted;
    TwoLoopsCanPart(Run(Run(y, a), b), i, j);
    var rest :| NoFurtherCall(rest) && Parted(Run(Run(Run(y, a), b), rest));
    ReturnsAreCallFree();
    RunConcat(y, a, b);
    RunConcat(y, a + b, rest);
    CallFree(a, b);
    CallFree(a + b, rest);
    assert NoFurtherCall(a + b + rest) && Parted(Run(y, a + b + rest));
  }

  /** The start is accepted with another one waiting. */
  lemma StartBesideAStart(y: System)
    requires Numbered(y) && Sound(y.bot, Checking) && !y.bot.fault && y.bot.clientKnown && ReadsAreCurrent(y)
    requires y.loops == map[] && |y.starts| == 1 && !y.bot.running
    ensures exists rest :: NoFurtherCall(rest) && Parted(Run(Step(y, StartCalled), rest))
  {
    hide Run, Sound, NoFurtherCall;
    var z := Step(y, StartCalled);
    CallsKeepSound(y.bot, Checking, y.bot.cfg);
    SaveKeepsSound(Begun(y.bot), Checking);
    ReturnsAreCallFree();
    ReturnKeepsRest(z);
    var z1 := Step(z, RETURNS);
    RunNothing(z);
    if SyncsFirst(y.bot) {
      assert z1.starts == [Asked];
      ReturnKeepsRest(z1);
      RunTwo(z, RETURNS, RETURNS);
      var z2 := Step(z1, RETURNS);
      assert z2.loops == map[z.created := Checking, z1.created := Checking];
      ExtendParting(z, [], [RETURNS, RETURNS], z.created, z1.created);
    } else {
      RunOne(z, RETURNS);
      assert z1.loops == map[y.created := Checking, z.created := Checking];
      ExtendParting(z, [], [RETURNS], y.created, z.created);
    }
  }

  lemma {:induction false} WithoutCallsNothingParts(y: System, events: seq<Event>)
    requires Claims(y) <= 1 && NoFurtherCall(events) && SoundSystem(y) && Numbered(y)
    ensures !Parted(Run(y, events))
    decreases events
  {
    hide Claims, Step, AtMostOne, Numbered, SoundSystem, Parted;
    FewClaimsMeanOneLoop(y);
    if events == [] {
      SoundIsNotParted(y);
    } else {
      var z := Step(y, events[0]);
      StepKeepsClaims(y, events[0]);
      FewClaimsMeanOneLoop(z);
      StepKeepsNumbers(y, events[0]);
      StepKeepsSound(y, events[0]);
      assert NoFurtherCall(events[1..]) by {
        assert forall i :: 0 <= i < |events[1..]| ==> events[1..][i] == events[i + 1];
      }
      WithoutCallsNothingParts(z, events[1..]);
    }
  }

  lemma SoundIsNotParted(y: System)
    requires SoundSystem(y)
    ensures !Parted(y)
  {
    if y.loops != map[] {
      var i :| i in y.loops;
      assert Sound(y.bot, y.loops[i]);
    }
  }

  /** A sound bot with a client accepts a start. Without any further call, exposure and record can
      part with no fault raised exactly when, at that start, a loop is still alive or another start
      still waits for its sync. */
  lemma ExposureCanPartExactlyWhen(y: System)
    requires Claims(y) <= 1 && Numbered(y) && SoundSystem(y) && ReadsAreCurrent(y)
    requires !y.bot.running && y.bot.clientKnown && !y.bot.fault
    ensures (exists rest :: NoFurtherCall(rest) && Parted(Run(Step(y, StartCalled), rest)))
       <==> y.loops != map[] || y.starts != []
  {
    hide Run, NoFurtherCall, Parted, Sound, ReadsAreCurrent, Step, Numbered;
    FewClaimsMeanOneLoop(y);
    if y.loops != map[] {
      var i :| i in y.loops;
      assert y.loops == map[i := y.loops[i]];
      StartUnderALoop(y, i);
    } else if y.starts != [] {
      assert |y.starts| == 1;
      StartBesideAStart(y);
    } else {
      StepKeepsClaims(y, StartCalled);
      FewClaimsMeanOneLoop(Step(y, StartCalled));
      StepKeepsNumbers(y, StartCalled);
      StepKeepsSound(y, StartCalled);
      forall rest | NoFurtherCall(rest) ensures !Parted(Run(Step(y, StartCalled), rest)) {
        WithoutCallsNothingParts(Step(y, StartCalled), rest);
      }
    }
  }
}
