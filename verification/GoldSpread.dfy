/** One monitor loop of the gold-spread bot (app/gold_spread_bot.py): its signals, and what it does
    to the bot's fields and to the exchange between two awaits. GoldSpreadRuns interleaves any
    number of loops with the lifecycle calls.

    What an order reports and what it fills are separate: a call that raises, or fails after the
    exchange has accepted the order, reports nothing. Assumed of the exchange: orders that close a
    leg are reduce-only and fill completely or not at all, and an unwind that reports success has
    filled. */
module GoldSpread {
  import opened Wrappers
  import opened Books

  datatype Token = PAXG | XAUT

  /** Which token trades at a premium, and is sold short. */
  datatype Direction = PaxgPremium | XautPremium

  function ShortToken(d: Direction): Token { if d.PaxgPremium? then PAXG else XAUT }

  function LongToken(d: Direction): Token { if d.PaxgPremium? then XAUT else PAXG }

  datatype Snapshot = Snapshot(
    paxgBid: real, paxgAsk: real, xautBid: real, xautAsk: real,
    execSpread: real, exitExecSpread: real, direction: Direction)

  function ShortPrice(s: Snapshot): real { if s.direction.PaxgPremium? then s.paxgBid else s.xautBid }

  function LongPrice(s: Snapshot): real { if s.direction.PaxgPremium? then s.xautAsk else s.paxgAsk }

  datatype Config = Config(
    entrySpread: real, exitSpread: real, quantity: real, confirmations: int, maxPositionValueUsd: real,
    minActualSpreadRatio: real, maxVolatilityRatio: real, simulation: bool)

  datatype Position = Position(
    direction: Direction, shortToken: Token, shortQty: real, shortEntryPrice: real,
    longToken: Token, longQty: real, longEntryPrice: real, simulation: bool)

  datatype Phase = IDLE | MONITORING | ENTERING | HOLDING | EXITING | ERROR

  datatype Exposure = Exposure(paxg: real, xaut: real) {
    function At(t: Token): real { if t.PAXG? then paxg else xaut }
    function Plus(t: Token, x: real): Exposure {
      if t.PAXG? then Exposure(paxg + x, xaut) else Exposure(paxg, xaut + x)
    }
  }

  const FLAT := Exposure(0.0, 0.0)

  /** Where a monitor loop is suspended: before the test of its `while`, fetching a snapshot, or at
      an await of a signal handler. */
  datatype Handler =
    | Checking
    | Fetching
    | EntryRefresh
    | EntryOrders(direction: Direction)
    | EntrySweep(direction: Direction)
    | EntryVerify(direction: Direction, shortTraded: real, longTraded: real)
    | EntryBadFill(direction: Direction, shortTraded: real, longTraded: real)
    | EntryOneSided(token: Token, traded: real)   // signed: negative when the short leg filled
    | ExitRefresh(pos: Position)
    | ExitOrders(pos: Position)
    | ExitSettle(pos: Position)
    | ExitRepair(pos: Position, shortReported: bool, longReported: bool)
    | ExitSweep(pos: Position)

  /** No signal handler is running. */
  predicate IsIdle(h: Handler) { h.Checking? || h.Fetching? }

  predicate IsEntry(h: Handler) {
    h.EntryRefresh? || h.EntryOrders? || h.EntrySweep? || h.EntryVerify? || h.EntryBadFill? || h.EntryOneSided?
  }

  /** The handler's orders have been sent. */
  predicate PastOrders(h: Handler) { !IsIdle(h) && !h.EntryRefresh? && !h.ExitRefresh? }

  datatype SignalKind = NONE | HOLD | ENTRY | EXIT

  datatype Signals = Signals(count: int, last: SignalKind, history: seq<real>)

  datatype Disk = Disk(state: Phase, pos: Option<Position>)

  /** The fields all loops share, the persisted copy and the exchange's real exposure. `fault` is
      raised by the events listed in FaultCause and cleared by a start that finds the exchange flat
      or adopts its hedge. */
  datatype Bot = Bot(
    cfg: Config, clientKnown: bool, state: Phase, pos: Option<Position>, running: bool,
    signals: Signals, disk: Disk, exposure: Exposure, fault: bool)

  /** What became of the two entry orders: what each reports (zero when it does not count as filled),
      and what it has really filled. */
  datatype PairOutcome =
    | Reported(shortTraded: real, longTraded: real, shortFilled: real, longFilled: real)
    | Unreported(shortFilled: real, longFilled: real)   // timeout or gather failure

  /** A report differs from the fill. */
  predicate Misreported(o: PairOutcome) {
    o.Reported? && (o.shortTraded != o.shortFilled || o.longTraded != o.longFilled)
  }

  predicate Possible(o: PairOutcome) {
    o.shortFilled >= 0.0 && o.longFilled >= 0.0 && (o.Reported? ==> o.shortTraded >= 0.0 && o.longTraded >= 0.0)
  }

  /** What became of the two close orders: whether they reported in time, which of them report a
      fill, and which have really closed their leg. */
  datatype CloseOutcome =
    CloseOutcome(inTime: bool, shortReported: bool, longReported: bool, shortClosed: bool, longClosed: bool)

  /** What a loop's await can return. */
  datatype LoopEvent =
    | Ticked(snap: Snapshot)
    | NoSnapshot
    | Refreshed(latest: Option<Snapshot>)
    | EntryOrdersDone(outcome: PairOutcome)
    | FillsVerified(shortFill: real, longFill: real)
    | Unwound(shortOk: bool, longOk: bool)
    | SweepDone(fetched: bool, shortOk: bool, longOk: bool)
    | ExitOrdersDone(closes: CloseOutcome)
    | Settled
    | HandlerRaised

  // ---------------------------------------------------------------------------
  // Signals
  // ---------------------------------------------------------------------------

  const LIVE_HISTORY_MAX: nat := 720

  function ResetSignals(g: Signals): Signals { Signals(0, NONE, g.history) }

  /** _position_aware_exit_spread. */
  function PositionExitSpread(pos: Option<Position>, s: Snapshot): real {
    if pos.None? then s.exitExecSpread
    else if pos.value.direction.XautPremium? then s.paxgBid - s.xautAsk
    else s.xautBid - s.paxgAsk
  }

  function RawSignal(b: Bot, s: Snapshot): SignalKind {
    match b.state
    case HOLDING => if PositionExitSpread(b.pos, s) <= b.cfg.exitSpread then EXIT else HOLD
    case MONITORING => if s.execSpread >= b.cfg.entrySpread then ENTRY else HOLD
    case IDLE => if s.execSpread >= b.cfg.entrySpread then ENTRY else HOLD
    case _ => NONE
  }

  /** _evaluate: the returned signal and the counter it leaves. */
  function Confirmed(g: Signals, raw: SignalKind, confirmations: int): (SignalKind, Signals) {
    if raw.ENTRY? || raw.EXIT? then
      var n := if raw == g.last then g.count + 1 else 1;
      (if n >= confirmations then raw else HOLD, g.(count := n, last := raw))
    else (raw, g.(count := 0, last := raw))
  }

  function Recorded(history: seq<real>, execSpread: real): seq<real> {
    var h := history + [execSpread];
    if |h| > LIVE_HISTORY_MAX then h[|h| - LIVE_HISTORY_MAX..] else h
  }

  function Sum(xs: seq<real>): real { if xs == [] then 0.0 else xs[0] + Sum(xs[1..]) }

  function Squared(x: real): real { x * x }

  function SquaredDeviations(xs: seq<real>, mean: real): real {
    if xs == [] then 0.0 else Squared(xs[0] - mean) + SquaredDeviations(xs[1..], mean)
  }

  const EPSILON: real := 0.000000001

  function Window(cfg: Config): nat { if cfg.confirmations < 2 then 2 else cfg.confirmations }

  /** The mean the volatility ratio divides by; None when the ratio is None. */
  function WindowMean(cfg: Config, history: seq<real>): Option<real> {
    var n := Window(cfg);
    if |history| < n then None
    else
      var mean := Sum(history[|history| - n..]) / n as real;
      if Abs(mean) < EPSILON then None else Some(mean)
  }

  /** The stability gate: std/|mean| > limit, with both sides squared. */
  predicate TooVolatile(cfg: Config, history: seq<real>) {
    && cfg.maxVolatilityRatio > 0.0 && WindowMean(cfg, history).Some?
    && (var n, mean := Window(cfg), WindowMean(cfg, history).value;
        SquaredDeviations(history[|history| - n..], mean) / n as real
          > Squared(Times(cfg.maxVolatilityRatio, mean)))
  }

  // ---------------------------------------------------------------------------
  // Turns of a loop: the new fields, and the await at which the loop suspends again
  // ---------------------------------------------------------------------------

  function Saved(b: Bot): Bot { b.(disk := Disk(b.state, b.pos)) }

  predicate IsLive(pos: Option<Position>) { pos.Some? && !pos.value.simulation }

  /** What the recorded position should look like on the exchange. */
  function LegsOf(pos: Option<Position>): Exposure {
    if !IsLive(pos) then FLAT
    else FLAT.Plus(pos.value.shortToken, -pos.value.shortQty).Plus(pos.value.longToken, pos.value.longQty)
  }

  function BeginEntry(b: Bot, s: Snapshot): (Bot, Handler) {
    var c := b.(signals := ResetSignals(b.signals));
    if TooVolatile(b.cfg, b.signals.history) then (c.(state := MONITORING), Checking)
    else if b.cfg.simulation then
      (Saved(c.(state := HOLDING,
                pos := Some(Position(s.direction, ShortToken(s.direction), b.cfg.quantity, ShortPrice(s),
                                     LongToken(s.direction), b.cfg.quantity, LongPrice(s), true)))), Checking)
    else if !b.clientKnown then (c.(state := ERROR), Checking)
    else (c.(state := ENTERING), EntryRefresh)
  }

  function BeginExit(b: Bot): (Bot, Handler) {
    if b.pos.None? then (b.(state := MONITORING), Checking)
    else
      var c := b.(signals := ResetSignals(b.signals));
      if b.pos.value.simulation || b.cfg.simulation then
        (Saved(c.(pos := None, state := MONITORING, fault := b.fault || IsLive(b.pos))), Checking)
      else if !b.clientKnown then (c.(state := HOLDING), Checking)
      else (c.(state := EXITING), ExitRefresh(b.pos.value))
  }

  function OnTick(b: Bot, s: Snapshot): (Bot, Handler) {
    var (signal, g) := Confirmed(b.signals, RawSignal(b, s), b.cfg.confirmations);
    var c := b.(signals := g.(history := Recorded(g.history, s.execSpread)));
    if signal.ENTRY? && b.state.MONITORING? then BeginEntry(c, s)
    else if signal.EXIT? && b.state.HOLDING? then BeginExit(c)
    else (c, Checking)
  }

  function OnRefreshed(b: Bot, h: Handler, latest: Option<Snapshot>): (Bot, Handler) {
    match h
    case EntryRefresh =>
      if latest.None? || latest.value.execSpread < b.cfg.entrySpread
         || b.cfg.quantity * Max(ShortPrice(latest.value), LongPrice(latest.value)) > b.cfg.maxPositionValueUsd
      then (b.(state := MONITORING), Checking)
      else (b, EntryOrders(latest.value.direction))
    case ExitRefresh(p) => (b, ExitOrders(p))
    case _ => (b, h)
  }

  function OnEntryOrders(b: Bot, h: Handler, outcome: PairOutcome): (Bot, Handler) {
    if !h.EntryOrders? || !Possible(outcome) then (b, h)
    else
      var d := h.direction;
      var c := b.(exposure := b.exposure.Plus(ShortToken(d), -outcome.shortFilled)
                                        .Plus(LongToken(d), outcome.longFilled),
                  fault := b.fault || Misreported(outcome));
      if outcome.Unreported? then (c, EntrySweep(d))
      else
        var s, l := outcome.shortTraded, outcome.longTraded;
        if s > 0.0 && l > 0.0 then (c, EntryVerify(d, s, l))
        else if s > 0.0 then (c, EntryOneSided(ShortToken(d), -s))
        else if l > 0.0 then (c, EntryOneSided(LongToken(d), l))
        else (c.(state := MONITORING), Checking)
  }

  function OnVerified(b: Bot, h: Handler, shortFill: real, longFill: real): (Bot, Handler) {
    if !h.EntryVerify? then (b, h)
    else
      var d, s, l := h.direction, h.shortTraded, h.longTraded;
      if shortFill - longFill < b.cfg.entrySpread * b.cfg.minActualSpreadRatio then (b, EntryBadFill(d, s, l))
      else
        (Saved(b.(pos := Some(Position(d, ShortToken(d), s, shortFill, LongToken(d), l, longFill, false)),
                  state := HOLDING)), Checking)
  }

  /** The exposure after an attempt to bring a leg back by `x`. */
  function Back(e: Exposure, t: Token, x: real, ok: bool): Exposure { if ok then e.Plus(t, x) else e }

  /** The exposure after a repeated reduce-only order: what is left of the leg, if anything. */
  function Refired(e: Exposure, t: Token, ok: bool): Exposure { Back(e, t, -e.At(t), ok) }

  function OnUnwound(b: Bot, h: Handler, shortOk: bool, longOk: bool): (Bot, Handler) {
    match h
    case EntryBadFill(d, s, l) =>
      (b.(exposure := Back(Back(b.exposure, ShortToken(d), s, shortOk), LongToken(d), -l, longOk),
          fault := b.fault || !shortOk || !longOk, state := MONITORING), Checking)
    case EntryOneSided(t, x) =>
      (b.(exposure := Back(b.exposure, t, -x, shortOk), fault := b.fault || !shortOk, state := MONITORING), Checking)
    case ExitRepair(p, shortReported, longReported) =>
      (b.(exposure := Refired(Refired(b.exposure, p.shortToken, shortOk && !shortReported),
                              p.longToken, longOk && !longReported)), ExitSweep(p))
    case _ => (b, h)
  }

  /** _sweep_after_timeout: unwind a short found on `s` and a long found on `l`. */
  function Swept(e: Exposure, s: Token, l: Token, fetched: bool, shortOk: bool, longOk: bool): Exposure {
    var first := if fetched && e.At(s) < 0.0 then Back(e, s, -e.At(s), shortOk) else e;
    if fetched && e.At(l) > 0.0 then Back(first, l, -e.At(l), longOk) else first
  }

  /** The sweep's read failed, or an unwind it attempted did. */
  predicate SweepFailed(e: Exposure, s: Token, l: Token, fetched: bool, shortOk: bool, longOk: bool) {
    !fetched || (e.At(s) < 0.0 && !shortOk) || (e.At(l) > 0.0 && !longOk)
  }

  function OnSwept(b: Bot, h: Handler, fetched: bool, shortOk: bool, longOk: bool): (Bot, Handler) {
    match h
    case EntrySweep(d) =>
      var s, l := ShortToken(d), LongToken(d);
      (b.(exposure := Swept(b.exposure, s, l, fetched, shortOk, longOk),
          fault := b.fault || SweepFailed(b.exposure, s, l, fetched, shortOk, longOk),
          state := MONITORING), Checking)
    case ExitSweep(p) =>
      (Saved(b.(exposure := Swept(b.exposure, p.shortToken, p.longToken, fetched, shortOk, longOk),
                fault := b.fault || SweepFailed(b.exposure, p.shortToken, p.longToken, fetched, shortOk, longOk),
                pos := None, state := MONITORING)), Checking)
    case _ => (b, h)
  }

  function OnExitOrders(b: Bot, h: Handler, o: CloseOutcome): (Bot, Handler) {
    if !h.ExitOrders? then (b, h)
    else
      var p := h.pos;
      var c := b.(exposure := Back(Back(b.exposure, p.shortToken, p.shortQty, o.shortClosed),
                                   p.longToken, -p.longQty, o.longClosed));
      if !o.inTime then (c, ExitSweep(p))
      else if o.shortReported && o.longReported then
        (c.(fault := b.fault || !o.shortClosed || !o.longClosed), ExitSettle(p))
      else (c, ExitRepair(p, o.shortReported, o.longReported))
  }

  /** One turn. An event that the loop is not waiting for changes nothing. */
  function Turn(b: Bot, h: Handler, e: LoopEvent): (Bot, Handler) {
    match e
    case Ticked(s) => if h.Fetching? then OnTick(b, s) else (b, h)
    case NoSnapshot => (b, if h.Fetching? then Checking else h)
    case Refreshed(latest) => OnRefreshed(b, h, latest)
    case EntryOrdersDone(outcome) => OnEntryOrders(b, h, outcome)
    case FillsVerified(s, l) => OnVerified(b, h, s, l)
    case Unwound(s, l) => OnUnwound(b, h, s, l)
    case SweepDone(f, s, l) => OnSwept(b, h, f, s, l)
    case ExitOrdersDone(closes) => OnExitOrders(b, h, closes)
    case Settled => if h.ExitSettle? then (Saved(b.(pos := None, state := MONITORING)), Checking) else (b, h)
    case HandlerRaised => (b.(fault := b.fault || PastOrders(h)), Checking)
  }

  // ---------------------------------------------------------------------------
  // Positions and handlers are well shaped
  // ---------------------------------------------------------------------------

  predicate WellShaped(p: Position) {
    && p.shortToken == ShortToken(p.direction) && p.longToken == LongToken(p.direction)
    && (!p.simulation ==> p.shortQty > 0.0 && p.longQty > 0.0)
  }

  predicate ShapedBot(b: Bot) {
    (b.pos.Some? ==> WellShaped(b.pos.value)) && (b.disk.pos.Some? ==> WellShaped(b.disk.pos.value))
  }

  predicate ShapedHandler(h: Handler) {
    match h
    case EntryVerify(_, s, l) => s > 0.0 && l > 0.0
    case ExitRefresh(p) => WellShaped(p)
    case ExitOrders(p) => WellShaped(p)
    case ExitSettle(p) => WellShaped(p)
    case ExitRepair(p, _, _) => WellShaped(p)
    case ExitSweep(p) => WellShaped(p)
    case _ => true
  }

  lemma TickKeepsShape(b: Bot, s: Snapshot)
    requires ShapedBot(b)
    ensures ShapedBot(OnTick(b, s).0) && ShapedHandler(OnTick(b, s).1)
  {
    hide TooVolatile, Recorded, Confirmed, RawSignal;
  }

  lemma TurnKeepsShape(b: Bot, h: Handler, e: LoopEvent)
    requires ShapedBot(b) && ShapedHandler(h)
    ensures ShapedBot(Turn(b, h, e).0) && ShapedHandler(Turn(b, h, e).1)
  {
    hide OnTick, Swept, SweepFailed, Back;
    if e.Ticked? { TickKeepsShape(b, e.snap); }
  }

  // ---------------------------------------------------------------------------
  // Control
  // ---------------------------------------------------------------------------

  /** HOLDING means a position; a position means HOLDING or EXITING. */
  predicate Coherent(state: Phase, pos: Option<Position>) {
    (state.HOLDING? ==> pos.Some?) && (pos.Some? ==> state.HOLDING? || state.EXITING?)
  }

  /** In memory and on disk; and while an entry is under way no position is recorded. */
  predicate Control(b: Bot, h: Handler) {
    Coherent(b.state, b.pos) && Coherent(b.disk.state, b.disk.pos) && (IsEntry(h) ==> b.pos.None?)
  }

  lemma TickKeepsControl(b: Bot, s: Snapshot)
    requires Control(b, Fetching)
    ensures Control(OnTick(b, s).0, OnTick(b, s).1)
  {
    hide TooVolatile, Recorded, Confirmed, RawSignal;
  }

  lemma HandlerKeepsControl(b: Bot, h: Handler, e: LoopEvent)
    requires Control(b, h) && !e.Ticked?
    ensures Control(Turn(b, h, e).0, Turn(b, h, e).1)
  {
    hide Swept, SweepFailed, Back;
  }

  lemma TurnKeepsControl(b: Bot, h: Handler, e: LoopEvent)
    requires Control(b, h)
    ensures Control(Turn(b, h, e).0, Turn(b, h, e).1)
  {
    hide Control, OnTick;
    if !e.Ticked? {
      HandlerKeepsControl(b, h, e);
    } else if h.Fetching? {
      TickKeepsControl(b, e.snap);
    }
  }

  // ---------------------------------------------------------------------------
  // Exposure
  // ---------------------------------------------------------------------------

  function Pair(d: Direction, shortQty: real, longQty: real): Exposure {
    FLAT.Plus(ShortToken(d), -shortQty).Plus(LongToken(d), longQty)
  }

  /** Part of a position's legs that is still open. */
  function Open(p: Position, shortClosed: bool, longClosed: bool): Exposure {
    FLAT.Plus(p.shortToken, if shortClosed then 0.0 else -p.shortQty)
        .Plus(p.longToken, if longClosed then 0.0 else p.longQty)
  }

  /** What the exchange holds at each await of a loop. */
  predicate ExposureAt(b: Bot, h: Handler) {
    match h
    case Checking => b.exposure == LegsOf(b.pos)
    case Fetching => b.exposure == LegsOf(b.pos)
    case EntryRefresh => b.exposure == FLAT
    case EntryOrders(_) => b.exposure == FLAT
    case EntrySweep(d) => b.exposure.At(ShortToken(d)) <= 0.0 <= b.exposure.At(LongToken(d))
    case EntryVerify(d, s, l) => b.exposure == Pair(d, s, l)
    case EntryBadFill(d, s, l) => b.exposure == Pair(d, s, l)
    case EntryOneSided(t, x) => b.exposure == FLAT.Plus(t, x)
    case ExitRefresh(p) => b.pos == Some(p) && IsLive(b.pos) && b.exposure == LegsOf(b.pos)
    case ExitOrders(p) => b.pos == Some(p) && IsLive(b.pos) && b.exposure == LegsOf(b.pos)
    case ExitSettle(p) => b.pos == Some(p) && IsLive(b.pos) && b.exposure == FLAT
    case ExitRepair(p, _, _) =>
      b.pos == Some(p) && IsLive(b.pos) && b.exposure.At(p.shortToken) <= 0.0 <= b.exposure.At(p.longToken)
    case ExitSweep(p) =>
      b.pos == Some(p) && IsLive(b.pos) && b.exposure.At(p.shortToken) <= 0.0 <= b.exposure.At(p.longToken)
  }

  /** Unless a fault was raised, the exchange holds what the await at hand implies, and the
      persisted position means the same legs as the one in memory. */
  predicate Matched(b: Bot, h: Handler) {
    !b.fault ==> ExposureAt(b, h) && LegsOf(b.disk.pos) == LegsOf(b.pos)
  }

  /** All a loop relies on and keeps. */
  predicate Sound(b: Bot, h: Handler) {
    ShapedBot(b) && ShapedHandler(h) && Control(b, h) && Matched(b, h)
  }

  // One lemma per group of turns; each hides what the group does not need.

  lemma TickKeepsMatched(b: Bot, s: Snapshot)
    requires Sound(b, Fetching)
    ensures Matched(OnTick(b, s).0, OnTick(b, s).1)
  {
    hide TooVolatile, Recorded, Confirmed, RawSignal;
  }

  lemma EntryKeepsMatched(b: Bot, h: Handler, e: LoopEvent)
    requires Sound(b, h)
    requires e.EntryOrdersDone? || e.FillsVerified?
    ensures Matched(Turn(b, h, e).0, Turn(b, h, e).1)
  {
  }

  lemma UnwoundKeepsMatched(b: Bot, h: Handler, shortOk: bool, longOk: bool)
    requires Sound(b, h)
    ensures Matched(OnUnwound(b, h, shortOk, longOk).0, OnUnwound(b, h, shortOk, longOk).1)
  {
  }

  lemma ClosedLegs(p: Position, shortClosed: bool, longClosed: bool)
    requires WellShaped(p) && !p.simulation
    ensures var left := Open(p, shortClosed, longClosed);
            && Back(Back(LegsOf(Some(p)), p.shortToken, p.shortQty, shortClosed),
                    p.longToken, -p.longQty, longClosed) == left
            && left.At(p.shortToken) <= 0.0 <= left.At(p.longToken)
            && (shortClosed && longClosed ==> left == FLAT)
  {
  }

  lemma ExitOrdersKeepMatched(b: Bot, h: Handler, o: CloseOutcome)
    requires Sound(b, h)
    ensures Matched(OnExitOrders(b, h, o).0, OnExitOrders(b, h, o).1)
  {
    hide Back, LegsOf, Open, Exposure.At, Exposure.Plus, Pair, Coherent;
    if h.ExitOrders? && !b.fault { ClosedLegs(h.pos, o.shortClosed, o.longClosed); }
  }

  lemma SweepKeepsMatched(b: Bot, h: Handler, fetched: bool, shortOk: bool, longOk: bool)
    requires Sound(b, h)
    ensures Matched(OnSwept(b, h, fetched, shortOk, longOk).0, OnSwept(b, h, fetched, shortOk, longOk).1)
  {
  }

  lemma OtherTurnsKeepMatched(b: Bot, h: Handler, e: LoopEvent)
    requires Sound(b, h)
    requires e.NoSnapshot? || e.Refreshed? || e.Settled? || e.HandlerRaised?
    ensures Matched(Turn(b, h, e).0, Turn(b, h, e).1)
  {
  }

  lemma TurnKeepsSound(b: Bot, h: Handler, e: LoopEvent)
    requires Sound(b, h)
    ensures Sound(Turn(b, h, e).0, Turn(b, h, e).1)
  {
    TurnKeepsShape(b, h, e);
    TurnKeepsControl(b, h, e);
    hide Control, Matched, ShapedBot, ShapedHandler, OnTick, OnUnwound, OnSwept, OnExitOrders;
    match e
    case Ticked(s) => if h.Fetching? { TickKeepsMatched(b, s); }
    case EntryOrdersDone(_) => EntryKeepsMatched(b, h, e);
    case FillsVerified(_, _) => EntryKeepsMatched(b, h, e);
    case Unwound(shortOk, longOk) => UnwoundKeepsMatched(b, h, shortOk, longOk);
    case SweepDone(fetched, shortOk, longOk) => SweepKeepsMatched(b, h, fetched, shortOk, longOk);
    case ExitOrdersDone(closes) => ExitOrdersKeepMatched(b, h, closes);
    case _ => OtherTurnsKeepMatched(b, h, e);
  }

  // ---------------------------------------------------------------------------
  // When an entry is recorded as it happened
  // ---------------------------------------------------------------------------

  /** An entry from its order reports to its end, with successful unwinds. */
  function EntryEnd(b: Bot, d: Direction, o: PairOutcome, shortFill: real, longFill: real): (Bot, Handler) {
    var t1 := OnEntryOrders(b, EntryOrders(d), o);
    var t2 := OnVerified(t1.0, t1.1, shortFill, longFill);
    OnUnwound(t2.0, t2.1, true, true)
  }

  lemma PairMatches(b: Bot, d: Direction, o: PairOutcome, shortFill: real, longFill: real)
    requires b.exposure == FLAT && b.pos.None? && o.Reported? && Possible(o)
    requires o.shortTraded > 0.0 && o.longTraded > 0.0
    ensures var (after, h) := EntryEnd(b, d, o, shortFill, longFill);
            h.Checking? && (after.exposure == LegsOf(after.pos) <==> !Misreported(o))
  {
  }

  lemma SingleLegMatches(b: Bot, d: Direction, o: PairOutcome, shortFill: real, longFill: real)
    requires b.exposure == FLAT && b.pos.None? && o.Reported? && Possible(o)
    requires o.shortTraded == 0.0 || o.longTraded == 0.0
    ensures var (after, h) := EntryEnd(b, d, o, shortFill, longFill);
            h.Checking? && (after.exposure == LegsOf(after.pos) <==> !Misreported(o))
  {
  }

  /** Whatever the fill prices and the branch they lead to, a reported entry from flat ends with the
      exchange holding what is recorded exactly when both legs report what they have filled. */
  lemma EntryMatchesExactlyWhenReported(b: Bot, d: Direction, o: PairOutcome, shortFill: real, longFill: real)
    requires b.exposure == FLAT && b.pos.None? && o.Reported? && Possible(o)
    ensures var (after, h) := EntryEnd(b, d, o, shortFill, longFill);
            h.Checking? && (after.exposure == LegsOf(after.pos) <==> !Misreported(o))
  {
    hide EntryEnd, LegsOf;
    if o.shortTraded > 0.0 && o.longTraded > 0.0 {
      PairMatches(b, d, o, shortFill, longFill);
    } else {
      SingleLegMatches(b, d, o, shortFill, longFill);
    }
  }

  // ---------------------------------------------------------------------------
  // Confirmation window
  // ---------------------------------------------------------------------------

  /** While the last raw signal is ENTRY, the newest `count` history items are the confirming ticks. */
  predicate Confirming(b: Bot) {
    var g, n := b.signals, |b.signals.history|;
    && g.count >= 0 && n <= LIVE_HISTORY_MAX
    && (g.last.ENTRY? ==>
          forall i :: 0 <= i < n && n - i <= g.count ==> g.history[i] >= b.cfg.entrySpread)
    && (g.last.ENTRY? ==> n == LIVE_HISTORY_MAX || g.count <= n)
  }

  lemma TickKeepsConfirming(b: Bot, s: Snapshot)
    requires Confirming(b)
    ensures var (_, g) := Confirmed(b.signals, RawSignal(b, s), b.cfg.confirmations);
            Confirming(b.(signals := g.(history := Recorded(g.history, s.execSpread))))
  {
    hide PositionExitSpread;
  }

  /** Clearing the counter, or leaving signals and threshold alone, keeps the window. */
  lemma UntouchedKeepsConfirming(b: Bot, after: Bot)
    requires Confirming(b)
    requires after.signals == Signals(0, NONE, b.signals.history) || after.signals == Signals(0, NONE, [])
             || (after.signals == b.signals && after.cfg.entrySpread == b.cfg.entrySpread)
    ensures Confirming(after)
  {
  }

  lemma HandlersLeaveSignals(b: Bot, h: Handler, e: LoopEvent)
    requires !e.Ticked?
    ensures Turn(b, h, e).0.signals == b.signals && Turn(b, h, e).0.cfg == b.cfg
  {
    hide Swept, SweepFailed, Back;
  }

  lemma TickTouchesSignalsOnce(b: Bot, s: Snapshot)
    ensures var (_, g) := Confirmed(b.signals, RawSignal(b, s), b.cfg.confirmations);
            var seen, after := g.(history := Recorded(g.history, s.execSpread)), OnTick(b, s).0;
            (after.signals == seen || after.signals == ResetSignals(seen)) && after.cfg == b.cfg
  {
    hide TooVolatile, Recorded, Confirmed, RawSignal;
  }

  lemma TurnKeepsConfirming(b: Bot, h: Handler, e: LoopEvent)
    requires Confirming(b)
    ensures Confirming(Turn(b, h, e).0)
  {
    hide Confirming, OnTick, Recorded, Confirmed, RawSignal;
    if !e.Ticked? {
      HandlersLeaveSignals(b, h, e);
      UntouchedKeepsConfirming(b, Turn(b, h, e).0);
    } else if h.Fetching? {
      var s := e.snap;
      var (_, g) := Confirmed(b.signals, RawSignal(b, s), b.cfg.confirmations);
      var seen := b.(signals := g.(history := Recorded(g.history, s.execSpread)));
      TickKeepsConfirming(b, s);
      TickTouchesSignalsOnce(b, s);
      UntouchedKeepsConfirming(seen, OnTick(b, s).0);
    }
  }

  lemma {:induction false} SumAtLeast(xs: seq<real>, t: real)
    requires forall i :: 0 <= i < |xs| ==> xs[i] >= t
    ensures Sum(xs) >= Times(|xs| as real, t)
  {
    hide Times;
    if xs == [] {
      NoTerms(t);
    } else {
      SumAtLeast(xs[1..], t);
      OneMoreTerm(|xs[1..]| as real, t);
    }
  }

  lemma NoTerms(t: real)
    ensures Times(0.0, t) == 0.0
  {
  }

  lemma OneMoreTerm(n: real, t: real)
    ensures Times(n + 1.0, t) == t + Times(n, t)
  {
  }

  lemma MeanAtLeast(sum: real, n: real, t: real)
    requires n > 0.0 && sum >= Times(n, t)
    ensures sum / n >= t
  {
    QuotientMono(t, 1.0, sum, n);
  }

  lemma ConfirmedTicks(b: Bot, s: Snapshot)
    requires Confirming(b) && b.cfg.confirmations <= LIVE_HISTORY_MAX
    requires Confirmed(b.signals, RawSignal(b, s), b.cfg.confirmations).0.ENTRY?
    ensures var h, n := Recorded(b.signals.history, s.execSpread), b.cfg.confirmations;
            n <= |h| && (forall i :: 0 <= i < |h| && |h| - n <= i ==> h[i] >= b.cfg.entrySpread)
  {
    hide RawSignal;
    TickKeepsConfirming(b, s);
  }

  lemma WindowMeanAtLeast(window: seq<real>, t: real)
    requires window != [] && forall i :: 0 <= i < |window| ==> window[i] >= t
    ensures Sum(window) / |window| as real >= t
  {
    hide Sum;
    SumAtLeast(window, t);
    MeanAtLeast(Sum(window), |window| as real, t);
  }

  /** A confirmed ENTRY on a kept window: the newest items are the confirming ticks alone, and their
      mean reaches the threshold. */
  lemma ConfirmedWindow(b: Bot, s: Snapshot)
    requires Confirming(b) && 2 <= b.cfg.confirmations <= LIVE_HISTORY_MAX
    requires Confirmed(b.signals, RawSignal(b, s), b.cfg.confirmations).0.ENTRY?
    ensures var h, n := Recorded(b.signals.history, s.execSpread), b.cfg.confirmations;
            && n <= |h| && (forall i :: |h| - n <= i < |h| ==> h[i] >= b.cfg.entrySpread)
            && Sum(h[|h| - n..]) / n as real >= b.cfg.entrySpread
            && (b.cfg.entrySpread >= EPSILON ==>
                  WindowMean(b.cfg, h).Some? && WindowMean(b.cfg, h).value >= b.cfg.entrySpread)
  {
    hide RawSignal, Confirmed, Confirming, Recorded, Sum;
    ConfirmedTicks(b, s);
    var h, n := Recorded(b.signals.history, s.execSpread), b.cfg.confirmations;
    var window := h[|h| - n..];
    forall i | 0 <= i < |window| ensures window[i] >= b.cfg.entrySpread {
      assert window[i] == h[|h| - n + i];
    }
    WindowMeanAtLeast(window, b.cfg.entrySpread);
  }

  // ---------------------------------------------------------------------------
  // What the exit signal means
  // ---------------------------------------------------------------------------

  function ShortAsk(p: Position, s: Snapshot): real { if p.shortToken.PAXG? then s.paxgAsk else s.xautAsk }

  function LongBid(p: Position, s: Snapshot): real { if p.shortToken.PAXG? then s.xautBid else s.paxgBid }

  /** Profit per unit of closing the position at the snapshot's bid and ask. */
  function ClosePnl(p: Position, s: Snapshot): real {
    (p.shortEntryPrice - ShortAsk(p, s)) + (LongBid(p, s) - p.longEntryPrice)
  }

  /** The exit test bounds the closing profit from above: EXIT is raised exactly when closing now
      earns at most the entry spread plus the configured exit spread. */
  lemma ExitBoundsProfit(b: Bot, s: Snapshot)
    requires b.state.HOLDING? && b.pos.Some? && WellShaped(b.pos.value)
    ensures RawSignal(b, s).EXIT?
       <==> ClosePnl(b.pos.value, s)
              <= (b.pos.value.shortEntryPrice - b.pos.value.longEntryPrice) + b.cfg.exitSpread
  {
  }

  /** With a non-negative exit setting every snapshot that still shows a premium raises EXIT. */
  lemma PremiumRaisesExit(b: Bot, s: Snapshot)
    requires b.state.HOLDING? && b.pos.Some? && WellShaped(b.pos.value)
    requires b.cfg.exitSpread >= 0.0 && ShortAsk(b.pos.value, s) >= LongBid(b.pos.value, s)
    ensures RawSignal(b, s).EXIT?
  {
  }

  /** Exit setting 2, entered at a spread of 10: the spread has grown to 48 and EXIT is raised, at a
      loss of 38 per unit. */
  lemma ExitFarFromConvergence(b: Bot, s: Snapshot)
    requires b.state.HOLDING? && b.cfg.exitSpread == 2.0
    requires b.pos == Some(Position(PaxgPremium, PAXG, 1.0, 2010.0, XAUT, 1.0, 2000.0, false))
    requires s.paxgAsk == 2048.0 && s.xautBid == 2000.0
    ensures RawSignal(b, s).EXIT? && ClosePnl(b.pos.value, s) == -38.0
  {
  }

  // ---------------------------------------------------------------------------
  // The stability gate
  // ---------------------------------------------------------------------------

  lemma SquaresOrder(a: real, b: real)
    requires a >= 0.0 && b >= 0.0
    ensures Squared(a) > Squared(b) <==> a > b
  {
    if a < b { StrictSquares(a, b); }
    if a > b { StrictSquares(b, a); }
  }

  lemma StrictSquares(a: real, b: real)
    requires 0.0 <= a < b
    ensures Squared(a) < Squared(b)
  {
    SquareGrows(a, b - a);
    assert a + (b - a) == b;
  }

  lemma SquareGrows(a: real, d: real)
    requires a >= 0.0 && d > 0.0
    ensures a * a < (a + d) * (a + d)
  {
    assert a * d >= 0.0 && d * d > 0.0;
    assert (a + d) * (a + d) == a * a + 2.0 * (a * d) + d * d;
  }

  lemma SquareOfAbs(x: real)
    ensures Squared(Abs(x)) == Squared(x)
  {
  }

  lemma AbsOfProduct(limit: real, mean: real)
    requires limit > 0.0
    ensures Abs(Times(limit, mean)) == Times(limit, Abs(mean))
  {
    MulMono(0.0, Abs(mean), limit);
  }

  lemma SquareBeyond(d: real, limit: real, mean: real)
    requires limit > 0.0
    ensures Squared(d) > Squared(Times(limit, mean)) <==> Abs(d) > Times(limit, Abs(mean))
  {
    hide Squared, Times;
    SquareOfAbs(d);
    SquareOfAbs(Times(limit, mean));
    AbsOfProduct(limit, mean);
    SquaresOrder(Abs(d), Abs(Times(limit, mean)));
  }

  /** The literal mean of the gate's window. */
  predicate HasMean(cfg: Config, history: seq<real>, mean: real) {
    var n := if cfg.confirmations < 2 then 2 else cfg.confirmations;
    n <= |history| && mean == Sum(history[|history| - n..]) / n as real && Abs(mean) >= 0.000000001
  }

  /** What the gate compares, for the mean of its window. */
  lemma GateCompares(cfg: Config, history: seq<real>, mean: real)
    requires HasMean(cfg, history, mean) && cfg.maxVolatilityRatio > 0.0
    ensures var n := if cfg.confirmations < 2 then 2 else cfg.confirmations;
            TooVolatile(cfg, history) <==>
              SquaredDeviations(history[|history| - n..], mean) / n as real
                > Squared(Times(cfg.maxVolatilityRatio, mean))
  {
    hide Squared, Sum, SquaredDeviations, Times;
  }

  lemma TwoDeviations(x: real, y: real, mean: real)
    requires mean == (x + y) / 2.0
    ensures (Squared(x - mean) + Squared(y - mean)) / 2.0 == Squared((x - y) / 2.0)
  {
    assert x - mean == (x - y) / 2.0 && y - mean == -((x - y) / 2.0);
  }

  lemma OfTwo(x: real, y: real, mean: real)
    ensures Sum([x, y]) == x + y && SquaredDeviations([x, y], mean) == Squared(x - mean) + Squared(y - mean)
  {
    hide Squared;
    assert [x, y][1..] == [y] && [y][1..] == [];
    assert Sum([y]) == y && SquaredDeviations([y], mean) == Squared(y - mean);
  }

  /** With a window of two the gate blocks exactly when the two spreads differ by more than the limit
      times their sum, in absolute values. */
  lemma GateOfTwo(cfg: Config, history: seq<real>)
    requires cfg.confirmations <= 2 && |history| >= 2 && cfg.maxVolatilityRatio > 0.0
    requires Abs(history[|history| - 2] + history[|history| - 1]) / 2.0 >= 0.000000001
    ensures var x, y := history[|history| - 2], history[|history| - 1];
            TooVolatile(cfg, history) <==> Abs(x - y) > cfg.maxVolatilityRatio * Abs(x + y)
  {
    hide Squared, Sum, SquaredDeviations, Times, TooVolatile;
    var x, y, limit := history[|history| - 2], history[|history| - 1], cfg.maxVolatilityRatio;
    var mean := (x + y) / 2.0;
    assert history[|history| - 2..] == [x, y];
    OfTwo(x, y, mean);
    GateCompares(cfg, history, mean);
    TwoDeviations(x, y, mean);
    SquareBeyond((x - y) / 2.0, limit, mean);
    HalfBoth(x - y, x + y, limit);
  }

  lemma HalfBoth(d: real, m: real, limit: real)
    ensures Abs(d / 2.0) > Times(limit, Abs(m / 2.0)) <==> Abs(d) > limit * Abs(m)
  {
    assert Abs(m / 2.0) == Abs(m) / 2.0;
    assert limit * (Abs(m) / 2.0) == limit * Abs(m) / 2.0;
  }

  lemma {:induction false} DeviationsWithin(xs: seq<real>, mean: real, square: real)
    ensures (forall i :: 0 <= i < |xs| ==> Squared(xs[i] - mean) <= square) ==>
              SquaredDeviations(xs, mean) <= Times(|xs| as real, square)
    ensures xs != [] && (forall i :: 0 <= i < |xs| ==> Squared(xs[i] - mean) > square) ==>
              SquaredDeviations(xs, mean) > Times(|xs| as real, square)
    decreases xs
  {
    hide Squared, Times;
    NoTerms(square);
    if xs != [] {
      var rest := xs[1..];
      DeviationsWithin(rest, mean, square);
      OneMoreTerm(|rest| as real, square);
      assert forall i :: 0 <= i < |rest| ==> rest[i] == xs[i + 1];
      assert |xs| as real == |rest| as real + 1.0;
    }
  }

  lemma ShareOf(total: real, n: real, part: real)
    requires n > 0.0
    ensures total <= Times(n, part) ==> total / n <= part
    ensures total > Times(n, part) ==> total / n > part
  {
    var v := total / n;
    assert v * n == total;
    ScaleOrder(v, part, n);
  }

  /** For any window with a mean: spreads that all stay within the limit times the mean of it never
      block, and spreads that are all further away always do. */
  lemma GateOfAny(cfg: Config, history: seq<real>, mean: real)
    requires HasMean(cfg, history, mean) && cfg.maxVolatilityRatio > 0.0
    ensures var n := if cfg.confirmations < 2 then 2 else cfg.confirmations;
            var window, bound := history[|history| - n..], cfg.maxVolatilityRatio * Abs(mean);
            && ((forall i :: 0 <= i < n ==> Abs(window[i] - mean) <= bound) ==> !TooVolatile(cfg, history))
            && ((forall i :: 0 <= i < n ==> Abs(window[i] - mean) > bound) ==> TooVolatile(cfg, history))
  {
    hide Squared, Sum, SquaredDeviations, TooVolatile;
    var n := if cfg.confirmations < 2 then 2 else cfg.confirmations;
    var window, limit := history[|history| - n..], cfg.maxVolatilityRatio;
    var square := Squared(Times(limit, mean));
    GateCompares(cfg, history, mean);
    forall i | 0 <= i < n
      ensures Squared(window[i] - mean) > square <==> Abs(window[i] - mean) > limit * Abs(mean)
    {
      SquareBeyond(window[i] - mean, limit, mean);
    }
    hide Times;
    DeviationsWithin(window, mean, square);
    ShareOf(SquaredDeviations(window, mean), n as real, square);
  }

  /** Raising the limit never blocks more. */
  lemma GateIsMonotone(cfg: Config, history: seq<real>, higher: real)
    requires 0.0 < cfg.maxVolatilityRatio <= higher
    ensures TooVolatile(cfg.(maxVolatilityRatio := higher), history) ==> TooVolatile(cfg, history)
  {
    hide Squared, Sum, SquaredDeviations, Times;
    var n := if cfg.confirmations < 2 then 2 else cfg.confirmations;
    if WindowMean(cfg, history).Some? {
      var mean := WindowMean(cfg, history).value;
      GateCompares(cfg, history, mean);
      GateCompares(cfg.(maxVolatilityRatio := higher), history, mean);
      HigherSquare(cfg.maxVolatilityRatio, higher, mean);
    }
  }

  lemma HigherSquare(limit: real, higher: real, mean: real)
    requires 0.0 < limit <= higher
    ensures Squared(Times(limit, mean)) <= Squared(Times(higher, mean))
  {
    hide Squared;
    SquareBeyond(Times(limit, mean), higher, mean);
    AbsOfProduct(limit, mean);
    MulMono(limit, higher, Abs(mean));
  }

  /** The gate is off without a positive limit, without enough spreads, and around a zero mean. */
  lemma GateIsOff(cfg: Config, history: seq<real>)
    requires || cfg.maxVolatilityRatio <= 0.0
             || |history| < (if cfg.confirmations < 2 then 2 else cfg.confirmations)
             || (forall mean :: !HasMean(cfg, history, mean))
    ensures !TooVolatile(cfg, history)
  {
    var n := if cfg.confirmations < 2 then 2 else cfg.confirmations;
    if |history| >= n && cfg.maxVolatilityRatio > 0.0 {
      assert !HasMean(cfg, history, Sum(history[|history| - n..]) / n as real);
    }
  }

  // ---------------------------------------------------------------------------
  // When a signal is confirmed, and what it starts
  // ---------------------------------------------------------------------------

  /** The snapshot is one to trade on: wide enough for a flat bot, and for one that holds, closing now
      earns no more than the entry spread plus the exit setting. */
  predicate Favourable(b: Bot, s: Snapshot) {
    if b.state.HOLDING? && b.pos.Some? then
      ClosePnl(b.pos.value, s) <= (b.pos.value.shortEntryPrice - b.pos.value.longEntryPrice) + b.cfg.exitSpread
    else s.execSpread >= b.cfg.entrySpread
  }

  /** How many of the snapshots, up to the last one, have been favourable without a break. */
  function Streak(b: Bot, snaps: seq<Snapshot>): nat {
    if snaps == [] || !Favourable(b, snaps[|snaps| - 1]) then 0 else Streak(b, snaps[..|snaps| - 1]) + 1
  }

  /** The counter after these snapshots, from a cleared one. */
  function Counted(b: Bot, snaps: seq<Snapshot>): Signals {
    if snaps == [] then Signals(0, NONE, b.signals.history)
    else Confirmed(Counted(b, snaps[..|snaps| - 1]), RawSignal(b, snaps[|snaps| - 1]), b.cfg.confirmations).1
  }

  /** A flat bot between trades, or one that holds a position. */
  predicate Waiting(b: Bot) {
    if b.state.HOLDING? then b.pos.Some? && WellShaped(b.pos.value) else b.state.MONITORING? || b.state.IDLE?
  }

  lemma RawIsFavourable(b: Bot, s: Snapshot)
    requires Waiting(b)
    ensures RawSignal(b, s)
         == if !Favourable(b, s) then HOLD else if b.state.HOLDING? then EXIT else ENTRY
  {
    if b.state.HOLDING? { ExitBoundsProfit(b, s); }
  }

  lemma {:induction false} CounterIsStreak(b: Bot, snaps: seq<Snapshot>)
    requires Waiting(b)
    ensures var g := Counted(b, snaps);
            g.count == Streak(b, snaps)
            && (snaps != [] ==> g.last == RawSignal(b, snaps[|snaps| - 1]))
            && (snaps == [] ==> g.last.NONE?)
  {
    hide RawSignal, Favourable;
    if snaps != [] {
      CounterIsStreak(b, snaps[..|snaps| - 1]);
      RawIsFavourable(b, snaps[|snaps| - 1]);
      if |snaps| > 1 { RawIsFavourable(b, snaps[|snaps| - 2]); }
    }
  }

  /** Over any snapshots of a waiting bot from a cleared counter: the next one is answered by ENTRY from a
      flat bot, by EXIT from one that holds, exactly when it and the ones before it make an unbroken
      streak of favourable snapshots at least as long as the confirmations. */
  lemma SignalsOnStreaks(b: Bot, snaps: seq<Snapshot>, s: Snapshot)
    requires Waiting(b)
    ensures var signal := Confirmed(Counted(b, snaps), RawSignal(b, s), b.cfg.confirmations).0;
            var streak := Streak(b, snaps + [s]);
            signal == if streak > 0 && streak >= b.cfg.confirmations then (if b.state.HOLDING? then EXIT else ENTRY)
                      else HOLD
  {
    hide RawSignal, Favourable;
    assert (snaps + [s])[..|snaps|] == snaps;
    CounterIsStreak(b, snaps);
    RawIsFavourable(b, s);
    if snaps != [] { RawIsFavourable(b, snaps[|snaps| - 1]); }
  }

  /** A bot that is entering, exiting or in error asks for nothing. */
  lemma BusyBotsAreSilent(b: Bot, s: Snapshot)
    requires b.state.ENTERING? || b.state.EXITING? || b.state.ERROR?
    ensures Confirmed(b.signals, RawSignal(b, s), b.cfg.confirmations).0.NONE?
    ensures OnTick(b, s).1.Checking? && OnTick(b, s).0.pos == b.pos && OnTick(b, s).0.state == b.state
  {
    hide TooVolatile, Recorded;
  }

  function AllRecorded(history: seq<real>, xs: seq<real>): seq<real>
    decreases xs
  {
    if xs == [] then history else AllRecorded(Recorded(history, xs[0]), xs[1..])
  }

  /** The newest 720 of them. */
  function Newest(xs: seq<real>): seq<real> { if |xs| <= 720 then xs else xs[|xs| - 720..] }

  lemma NewestOfNewest(xs: seq<real>, ys: seq<real>)
    ensures Newest(Newest(xs) + ys) == Newest(xs + ys)
  {
  }

  lemma RecordedIsNewest(history: seq<real>, x: real)
    ensures Recorded(history, x) == Newest(history + [x]) && |Recorded(history, x)| <= 720
  {
  }

  /** However many spreads are recorded, the history holds the newest 720 of all, in order. */
  lemma {:induction false} HistoryKeepsNewest(history: seq<real>, xs: seq<real>)
    requires |history| <= 720
    ensures AllRecorded(history, xs) == Newest(history + xs)
    decreases xs
  {
    if xs == [] {
      assert history + xs == history;
    } else {
      hide Recorded, Newest;
      RecordedIsNewest(history, xs[0]);
      HistoryKeepsNewest(Recorded(history, xs[0]), xs[1..]);
      NewestOfNewest(history + [xs[0]], xs[1..]);
      assert history + xs == (history + [xs[0]]) + xs[1..];
    }
  }

  /** The prices of a snapshot fit its spread: the premium token's bid against the other one's ask. */
  predicate Consistent(s: Snapshot) {
    s.execSpread == if s.direction.PaxgPremium? then s.paxgBid - s.xautAsk else s.xautBid - s.paxgAsk
  }

  /** A tick that confirms ENTRY on a flat monitoring bot. */
  predicate ConfirmsEntry(b: Bot, s: Snapshot) {
    && b.state.MONITORING? && Confirmed(b.signals, RawSignal(b, s), b.cfg.confirmations).0.ENTRY?
  }

  /** Such a tick goes back to monitoring when the gate blocks the recorded spreads, this one included.
      Otherwise it records a simulated hedge, or ends in error without a client, or goes on to refresh
      its prices. */
  lemma ConfirmedEntryLeadsTo(b: Bot, s: Snapshot)
    requires ConfirmsEntry(b, s)
    ensures var (after, h) := OnTick(b, s);
            var blocked := TooVolatile(b.cfg, Recorded(b.signals.history, s.execSpread));
            && after.signals.count == 0 && after.exposure == b.exposure
            && (h.EntryRefresh? <==> !blocked && !b.cfg.simulation && b.clientKnown)
            && (blocked ==> h.Checking? && after.state.MONITORING? && after.pos == b.pos)
            && (!blocked && b.cfg.simulation ==> h.Checking? && after.state.HOLDING? && after.pos.Some?)
            && (!blocked && !b.cfg.simulation && !b.clientKnown ==> h.Checking? && after.state.ERROR?)
  {
    hide TooVolatile, Recorded, RawSignal;
  }

  /** With two confirmations a live entry goes on exactly when this spread and the one before it differ
      by no more than the limit times their sum. */
  lemma EntryGateOfTwo(b: Bot, s: Snapshot)
    requires ConfirmsEntry(b, s) && b.cfg.confirmations == 2 && !b.cfg.simulation && b.clientKnown
    requires b.cfg.maxVolatilityRatio > 0.0 && 0 < |b.signals.history| < 720
    requires Abs(b.signals.history[|b.signals.history| - 1] + s.execSpread) / 2.0 >= 0.000000001
    ensures var x, y := b.signals.history[|b.signals.history| - 1], s.execSpread;
            OnTick(b, s).1.EntryRefresh? <==> Abs(x - y) <= b.cfg.maxVolatilityRatio * Abs(x + y)
  {
    hide TooVolatile, OnTick;
    ConfirmedEntryLeadsTo(b, s);
    GateOfTwo(b.cfg, Recorded(b.signals.history, s.execSpread));
  }

  /** A simulated entry sells the premium token at its bid and buys the other at its ask, in the
      configured quantity: on consistent prices it captures exactly the snapshot's spread. */
  lemma SimulatedEntryCapturesSpread(b: Bot, s: Snapshot)
    requires ConfirmsEntry(b, s) && Consistent(s) && b.cfg.simulation
    requires !TooVolatile(b.cfg, Recorded(b.signals.history, s.execSpread))
    ensures var p := OnTick(b, s).0.pos.value;
            && p.shortEntryPrice - p.longEntryPrice == s.execSpread && p.simulation
            && p.shortQty == b.cfg.quantity && p.longQty == b.cfg.quantity
            && p.shortToken == (if s.direction.PaxgPremium? then PAXG else XAUT) && p.longToken != p.shortToken
            && p.shortEntryPrice == (if p.shortToken.PAXG? then s.paxgBid else s.xautBid)
            && p.longEntryPrice == (if p.longToken.PAXG? then s.paxgAsk else s.xautAsk)
  {
    hide TooVolatile, Recorded, RawSignal;
  }

  /** The refreshed prices let the orders go out exactly when there are any, the spread still reaches the
      threshold, and the quantity is worth no more than the cap on either leg; the direction is that of
      the refreshed prices. */
  lemma EntryOrdersGoOutExactlyWhen(b: Bot, latest: Option<Snapshot>)
    requires b.cfg.quantity >= 0.0
    ensures var (after, h) := OnRefreshed(b, EntryRefresh, latest);
            && (h.EntryOrders?
                <==> && latest.Some? && latest.value.execSpread >= b.cfg.entrySpread
                     && (var s, q, cap := latest.value, b.cfg.quantity, b.cfg.maxPositionValueUsd;
                         if s.direction.PaxgPremium? then q * s.paxgBid <= cap && q * s.xautAsk <= cap
                         else q * s.xautBid <= cap && q * s.paxgAsk <= cap))
            && (h.EntryOrders? ==> h.direction == latest.value.direction && after == b)
            && (!h.EntryOrders? ==> h.Checking? && after == b.(state := MONITORING))
  {
    if latest.Some? {
      MulMono(Min(ShortPrice(latest.value), LongPrice(latest.value)),
              Max(ShortPrice(latest.value), LongPrice(latest.value)), b.cfg.quantity);
      MulCommutes(b.cfg.quantity, ShortPrice(latest.value));
      MulCommutes(b.cfg.quantity, LongPrice(latest.value));
    }
  }

  lemma MulCommutes(a: real, b: real)
    ensures a * b == b * a
  {
  }

  /** A reported entry records a position exactly when both legs report a fill and the prices they filled
      at leave at least the tolerated share of the entry threshold; the position has the reported
      quantities and those prices. */
  lemma EntryIsRecordedExactlyWhen(b: Bot, d: Direction, o: PairOutcome, shortFill: real, longFill: real)
    requires b.pos.None? && o.Reported? && Possible(o)
    ensures var after := EntryEnd(b, d, o, shortFill, longFill).0;
            && (after.pos.Some?
                <==> && o.shortTraded > 0.0 && o.longTraded > 0.0
                     && shortFill - longFill >= b.cfg.entrySpread * b.cfg.minActualSpreadRatio)
            && (after.pos.Some? ==>
                  var p := after.pos.value;
                  && after.state.HOLDING? && after.disk.pos == after.pos && !p.simulation
                  && p.shortQty == o.shortTraded && p.longQty == o.longTraded
                  && p.shortEntryPrice == shortFill && p.longEntryPrice == longFill
                  && p.shortToken == (if d.PaxgPremium? then PAXG else XAUT) && p.longToken != p.shortToken)
            && (after.pos.None? ==> after.state.MONITORING?)
  {
    hide Back;
  }

  /** A confirmed EXIT of a live position with a client goes on to refresh its prices and then to close
      exactly that position; without a client it keeps holding, and a simulated one is gone at once. */
  lemma ConfirmedExitLeadsTo(b: Bot, s: Snapshot)
    requires b.state.HOLDING? && b.pos.Some?
    requires Confirmed(b.signals, RawSignal(b, s), b.cfg.confirmations).0.EXIT?
    ensures var (after, h) := OnTick(b, s);
            && (b.pos.value.simulation || b.cfg.simulation ==>
                  h.Checking? && after.pos.None? && after.state.MONITORING? && after.disk.pos.None?)
            && (!b.pos.value.simulation && !b.cfg.simulation && b.clientKnown ==>
                  h == ExitRefresh(b.pos.value) && after.pos == b.pos && after.state.EXITING?)
            && (!b.pos.value.simulation && !b.cfg.simulation && !b.clientKnown ==>
                  h.Checking? && after.pos == b.pos && after.state.HOLDING?)
            && after.signals.count == 0
  {
    hide Recorded, RawSignal;
  }

  /** A handler that ends without an exception leaves the bot ready for the next signal: holding if a
      position is recorded, monitoring if none is. */
  lemma FinishedHandlersResume(b: Bot, h: Handler, e: LoopEvent)
    requires Control(b, h) && !IsIdle(h) && !e.HandlerRaised? && Turn(b, h, e).1.Checking?
    ensures var after := Turn(b, h, e).0;
            after.state == if after.pos.Some? then HOLDING else MONITORING
  {
    hide Swept, SweepFailed, Back, Misreported, Possible;
  }

  /** The bot after its loop has evaluated these snapshots. */
  function Ticks(b: Bot, snaps: seq<Snapshot>): Bot {
    if snaps == [] then b else OnTick(Ticks(b, snaps[..|snaps| - 1]), snaps[|snaps| - 1]).0
  }

  /** A handler that ends in an exception leaves the bot entering or exiting, and no later snapshot takes
      it out of that: it trades no more until a stop or a reset. */
  lemma {:induction false} RaisedHandlersAreStuck(b: Bot, h: Handler, snaps: seq<Snapshot>)
    requires b.state.ENTERING? || b.state.EXITING?
    ensures var raised := Turn(b, h, HandlerRaised);
            var after := Ticks(raised.0, snaps);
            && raised.1.Checking?
            && after.state == b.state && after.pos == b.pos && after.exposure == b.exposure
            && after.disk == b.disk
            && (forall s :: OnTick(after, s).1.Checking?)
  {
    hide TooVolatile, Recorded;
    if snaps != [] { RaisedHandlersAreStuck(b, h, snaps[..|snaps| - 1]); }
  }
}
