/** The arbitrage engine's trading steps (app/arbitrage.py) against a ledger of what the exchange
    holds: `net` is the exchange's position per instrument, `residue` the amounts that failed
    unwinds left behind. */
module ArbitrageEngine {
  import opened Wrappers
  import opened Books
  import opened Safety
  import opened Executor
  import opened Arbitrage

  datatype Legs = Legs(a: real, b: real) {
    function At(leg: Leg): real { if leg.LegA? then a else b }
    function Plus(leg: Leg, x: real): Legs { if leg.LegA? then Legs(a + x, b) else Legs(a, b + x) }
  }

  /** The engine's position fields and the ledger. */
  datatype Desk = Desk(hasPosition: bool, longSym: Option<string>, shortSym: Option<string>, net: Legs, residue: Legs)

  /** What the venue does with one leg: its answers to the placements and polls of a limit order, or
      the first chunk of a market order that fails; whether the engine stops waiting for the leg after
      its 30 seconds; and what a limit order, or a leg nobody waits for, really fills. */
  datatype LegEnv = LegEnv(
    timedOut: bool, bookFetched: bool, checksPassed: bool, first: Reply, second: Reply, canPoll: bool,
    poll1: Poll, poll2: Poll, poll3: Poll, failedChunk: Option<nat>, filled: real)

  /** What the environment does during one entry or exit: the two order books (None when the fetch
      raises) for the bought and the sold instrument, their minimum order sizes and ticks, the two
      legs, whether an unwind of each would succeed, and the position reads after an entry. */
  datatype TradeEnv = TradeEnv(
    books: Option<(Book, Book)>, minBuy: real, minSell: real, tickBuy: real, tickSell: real, bufferTicks: real,
    bought: LegEnv, sold: LegEnv, unwindBoughtOk: bool, unwindSoldOk: bool,
    readA: Option<seq<real>>, readB: Option<seq<real>>)

  /** An order as sent: market orders ignore the limit. */
  datatype Order = Order(leg: Leg, side: Side, quantity: real, limit: Limit)

  /** The leg an exit order for this symbol is sent to. */
  function LegOf(cfg: Config, sym: string): Leg { if sym == cfg.instrumentA then LegA else LegB }

  function SymbolOf(cfg: Config, leg: Leg): string { if leg.LegA? then cfg.instrumentA else cfg.instrumentB }

  function MidOf(snap: SpreadSnapshot, leg: Leg): real { if leg.LegA? then snap.midA else snap.midB }

  // ---------------------------------------------------------------------------
  // Legs
  // ---------------------------------------------------------------------------

  function Replies(leg: LegEnv): seq<Reply> { [leg.first, leg.second] }

  function Polls(leg: LegEnv): seq<Poll> { [leg.poll1, leg.poll2, leg.poll3] }

  function LimitOutcome(leg: LegEnv, quantity: real): Outcome {
    AggressiveOutcome(leg.bookFetched, leg.checksPassed, Replies(leg), leg.canPoll, Polls(leg), quantity)
  }

  function ChunkOk(leg: LegEnv): nat -> bool { (k: nat) => leg.failedChunk != Some(k) }

  /** _execute_single_leg as _execute_legs_parallel sees it: a timeout and an exception both count as
      a failure that traded nothing. */
  function ReportOf(cfg: Config, leg: LegEnv): LegReport {
    if leg.timedOut then LegReport(FAILED, leg.filled)
    else if cfg.aggressive then
      match LimitOutcome(leg, cfg.quantity)
      case Result(v) => LegReport(v, leg.filled)
      case Raised => LegReport(FAILED, leg.filled)
    else ChunkedLeg(cfg.quantity, cfg.chunkSize, ChunkOk(leg))
  }

  /** A limit order reached the venue. */
  predicate IsPlaced(leg: LegEnv) { leg.bookFetched && leg.checksPassed && Decisive(Replies(leg)).Response? }

  /** The venue's answers agree with what it filled, and an order it never got filled nothing. */
  ghost predicate TruthfulLeg(cfg: Config, leg: LegEnv) {
    cfg.aggressive && !leg.timedOut ==>
      if IsPlaced(leg) then Truthful(Decisive(Replies(leg)), Polls(leg), leg.filled, cfg.quantity)
      else leg.filled == 0.0
  }

  /** The engine asked the venue for the fill. */
  predicate Polled(leg: LegEnv) { IsPlaced(leg) && AsksForFill(Decisive(Replies(leg)), leg.canPoll) }

  /** Whether a leg's report can be trusted, told from how the order is sent and answered: the engine
      waits for it; a limit order was not placed, or is asked for its fill, or reports the whole
      quantity traded; a market order goes out whole, or its first chunk or none of its chunks fails. */
  ghost predicate Trustworthy(cfg: Config, leg: LegEnv) {
    && !leg.timedOut
    && if cfg.aggressive then
         !IsPlaced(leg) || Polled(leg) || Decisive(Replies(leg)).traded == cfg.quantity
       else
         || cfg.chunkSize <= 0.0 || cfg.chunkSize >= cfg.quantity || !ChunkOk(leg)(0)
         || AllChunksOk(cfg.quantity, cfg.chunkSize, ChunkOk(leg))
  }

  /** The same order and replies with another fill and other answers to polls. */
  function Filling(leg: LegEnv, poll1: Poll, poll2: Poll, poll3: Poll, filled: real): LegEnv {
    leg.(poll1 := poll1, poll2 := poll2, poll3 := poll3, filled := filled)
  }

  /** Whatever a truthful venue fills, and answers to polls, the leg's report is honest. */
  ghost predicate AlwaysHonest(cfg: Config, leg: LegEnv) {
    forall poll1: Poll, poll2: Poll, poll3: Poll, filled: real ::
      TruthfulLeg(cfg, Filling(leg, poll1, poll2, poll3, filled)) ==>
        Honest(ReportOf(cfg, Filling(leg, poll1, poll2, poll3, filled)), cfg.quantity)
  }

  lemma TrustworthyTellsItsFill(cfg: Config, leg: LegEnv)
    requires Trustworthy(cfg, leg) && TruthfulLeg(cfg, leg) && cfg.quantity > 0.0
    ensures TellsItsFill(cfg, leg)
  {
  }

  /** An untrustworthy leg and a truthful venue for which the report is wrong. */
  lemma UntrustworthyIsDishonest(cfg: Config, leg: LegEnv)
    requires !Trustworthy(cfg, leg) && cfg.quantity > 0.0
    requires leg.first.Response? ==> leg.first.traded >= 0.0
    requires leg.second.Response? ==> leg.second.traded >= 0.0
    ensures !AlwaysHonest(cfg, leg)
  {
    hide ReportOf, Honest;
    var r, q := Decisive(Replies(leg)), cfg.quantity;
    var filled := if leg.timedOut then q
                  else if !cfg.aggressive then 0.0
                  else if r.traded > 0.0 then r.traded
                  else if !r.isFinal && leg.canPoll then q else 0.0;
    var poll := Reported(filled == q, filled);
    var other := Filling(leg, poll, poll, poll, filled);
    assert TruthfulLeg(cfg, other);
    LegIsHonestExactlyWhen(cfg, other);
    assert !Honest(ReportOf(cfg, other), q);
  }

  /** A leg's report is sure to be honest exactly when it is trustworthy. */
  lemma LegIsTrustworthyExactlyWhen(cfg: Config, leg: LegEnv)
    requires cfg.quantity > 0.0
    requires leg.first.Response? ==> leg.first.traded >= 0.0
    requires leg.second.Response? ==> leg.second.traded >= 0.0
    ensures AlwaysHonest(cfg, leg) <==> Trustworthy(cfg, leg)
  {
    hide ReportOf, Honest, TruthfulLeg, TellsItsFill, Trustworthy;
    if Trustworthy(cfg, leg) {
      forall poll1: Poll, poll2: Poll, poll3: Poll, filled: real
        | TruthfulLeg(cfg, Filling(leg, poll1, poll2, poll3, filled))
        ensures Honest(ReportOf(cfg, Filling(leg, poll1, poll2, poll3, filled)), cfg.quantity)
      {
        var other := Filling(leg, poll1, poll2, poll3, filled);
        TrustIgnoresFills(cfg, leg, poll1, poll2, poll3, filled);
        TrustworthyTellsItsFill(cfg, other);
        LegIsHonestExactlyWhen(cfg, other);
      }
    } else {
      UntrustworthyIsDishonest(cfg, leg);
    }
  }

  lemma TrustIgnoresFills(cfg: Config, leg: LegEnv, poll1: Poll, poll2: Poll, poll3: Poll, filled: real)
    ensures Trustworthy(cfg, Filling(leg, poll1, poll2, poll3, filled)) <==> Trustworthy(cfg, leg)
  {
    assert forall k :: ChunkOk(Filling(leg, poll1, poll2, poll3, filled))(k) == ChunkOk(leg)(k);
  }

  /** For one fill: nothing had filled by a timeout; a limit order was polled, or not placed, or placed without a
      reference and not filled, or filled completely; a market order went out whole, or its first
      chunk failed, or none of its chunks did. */
  ghost predicate TellsItsFill(cfg: Config, leg: LegEnv) {
    if leg.timedOut then leg.filled == 0.0
    else if cfg.aggressive then
      var r := Decisive(Replies(leg));
      || !IsPlaced(leg) || Polled(leg)
      || leg.filled == (if !r.isFinal && r.traded == 0.0 && leg.canPoll then 0.0 else cfg.quantity)
    else
      || cfg.chunkSize <= 0.0 || cfg.chunkSize >= cfg.quantity || !ChunkOk(leg)(0)
      || AllChunksOk(cfg.quantity, cfg.chunkSize, ChunkOk(leg))
  }

  /** With a truthful venue that is exactly when a leg reports this fill. */
  lemma LegIsHonestExactlyWhen(cfg: Config, leg: LegEnv)
    requires TruthfulLeg(cfg, leg)
    ensures Honest(ReportOf(cfg, leg), cfg.quantity) <==> TellsItsFill(cfg, leg)
  {
    hide PolledOutcome, Chunks;
    if !leg.timedOut {
      if !cfg.aggressive {
        ChunkedLegIsHonestExactlyWhen(cfg.quantity, cfg.chunkSize, ChunkOk(leg));
      } else if IsPlaced(leg) {
        ReportAccounts(Replies(leg), leg.canPoll, Polls(leg), leg.filled, cfg.quantity);
      }
    }
  }

  // ---------------------------------------------------------------------------
  // Guards
  // ---------------------------------------------------------------------------

  /** The checks of one leg on its freshly fetched book. */
  predicate LegBlocked(cfg: Config, levels: seq<Level>, side: Side, price: real, minSize: real) {
    || cfg.quantity < minSize
    || !PreTradePasses(levels, side, cfg.quantity, price, cfg.slippagePct, cfg.minDepthUsd)
    || (cfg.liquidityMultiplier > 1.0 && Total(levels) < cfg.quantity * cfg.liquidityMultiplier)
    || (cfg.minTopBookMult > 0.0
        && (if levels == [] then 0.0 else levels[0].size) < cfg.quantity * cfg.minTopBookMult)
  }

  predicate OrdersBlocked(cfg: Config, buyPrice: real, sellPrice: real, env: TradeEnv) {
    || env.books.None?
    || LegBlocked(cfg, env.books.value.0.asks, Buy, buyPrice, env.minBuy)
    || LegBlocked(cfg, env.books.value.1.bids, Sell, sellPrice, env.minSell)
  }

  predicate SpreadRefused(cfg: Config, snap: SpreadSnapshot) {
    || (if cfg.strategy.DeltaNeutral? then snap.spreadPct > cfg.maxSpreadPct
        else Abs(snap.execSpread) < cfg.spreadEntryLow)
    || Abs(snap.execSpread) > cfg.maxExecSpread
  }

  /** Whenever orders go out on published books, both legs carry a limit whose levels hold the
      quantity within the slippage setting. */
  lemma OrdersCarryCoveringLimits(cfg: Config, buyPrice: real, sellPrice: real, env: TradeEnv)
    requires !OrdersBlocked(cfg, buyPrice, sellPrice, env)
    requires WellFormed(Buy, env.books.value.0.asks) && WellFormed(Sell, env.books.value.1.bids)
    requires env.tickBuy >= 0.0 && env.tickSell >= 0.0 && env.bufferTicks >= 0.0
    ensures var asks, bids, q := env.books.value.0.asks, env.books.value.1.bids, cfg.quantity;
            var buyLimit := VwapLimit(asks, Buy, q, env.tickBuy, env.bufferTicks);
            var sellLimit := VwapLimit(bids, Sell, q, env.tickSell, env.bufferTicks);
            && q > 0.0 && buyLimit.At? && sellLimit.At?
            && Total(Within(Buy, asks, buyLimit.price)) >= q && Total(Within(Sell, bids, sellLimit.price)) >= q
            && buyPrice != 0.0 && sellPrice != 0.0
            && AdversePct(Buy, Vwap(Within(Buy, asks, buyLimit.price), q), buyPrice) <= cfg.slippagePct
            && AdversePct(Sell, Vwap(Within(Sell, bids, sellLimit.price), q), sellPrice) <= cfg.slippagePct
  {
    hide Covers, Vwap, Within, Total, VwapLimit, AdversePct;
    var asks, bids, q := env.books.value.0.asks, env.books.value.1.bids, cfg.quantity;
    MulMono(0.0, env.tickBuy, env.bufferTicks);
    MulMono(0.0, env.tickSell, env.bufferTicks);
    PassingMeansCovered(asks, Buy, q, buyPrice, cfg.slippagePct, cfg.minDepthUsd);
    PassedChecksGiveALimit(asks, Buy, q, buyPrice, cfg.slippagePct, cfg.minDepthUsd, env.tickBuy, env.bufferTicks);
    PassedChecksGiveALimit(bids, Sell, q, sellPrice, cfg.slippagePct, cfg.minDepthUsd, env.tickSell, env.bufferTicks);
  }

  // ---------------------------------------------------------------------------
  // What two legs and their unwinds leave behind
  // ---------------------------------------------------------------------------

  /** The quantity that is reversed on a leg when the pair does not complete. */
  function Reversal(r: TradeResult, otherOk: bool, quantity: real): real {
    if r.success && otherOk then 0.0
    else if r.tradedQty > 0.0 then r.tradedQty
    else if r.success then quantity else 0.0
  }

  /** Net change of both legs, and what failed unwinds leave. */
  function AfterReports(d: Desk, buyLeg: Leg, sellLeg: Leg, quantity: real, bought: LegReport, sold: LegReport,
                        unwindBoughtOk: bool, unwindSoldOk: bool): Desk
  {
    var backBought := Reversal(bought.result, sold.result.success, quantity);
    var backSold := Reversal(sold.result, bought.result.success, quantity);
    d.(net := d.net.Plus(buyLeg, bought.filled - (if unwindBoughtOk then backBought else 0.0))
                   .Plus(sellLeg, (if unwindSoldOk then backSold else 0.0) - sold.filled),
       residue := d.residue.Plus(buyLeg, if unwindBoughtOk then 0.0 else backBought)
                           .Plus(sellLeg, if unwindSoldOk then 0.0 else -backSold))
  }

  function AfterOrders(d: Desk, buyLeg: Leg, sellLeg: Leg, cfg: Config, env: TradeEnv): Desk {
    AfterReports(d, buyLeg, sellLeg, cfg.quantity, ReportOf(cfg, env.bought), ReportOf(cfg, env.sold),
                 env.unwindBoughtOk, env.unwindSoldOk)
  }

  predicate BothFilled(cfg: Config, env: TradeEnv) {
    ReportOf(cfg, env.bought).result.success && ReportOf(cfg, env.sold).result.success
  }

  /** One unwind: `x` is the signed change it makes when it succeeds. */
  function Unwound(net: Legs, leg: Leg, x: real, ok: bool): Legs { if ok then net.Plus(leg, x) else net }

  /** The unwinds may run in either order, and an unwind of nothing may be skipped. */
  lemma UnwindsCompose(net: Legs, buyLeg: Leg, sellLeg: Leg, bought: real, sold: real,
                       x: real, y: real, buyOk: bool, sellOk: bool)
    ensures var start := net.Plus(buyLeg, bought).Plus(sellLeg, -sold);
            var done := net.Plus(buyLeg, bought - (if buyOk then x else 0.0))
                           .Plus(sellLeg, (if sellOk then y else 0.0) - sold);
            && Unwound(Unwound(start, buyLeg, -x, buyOk), sellLeg, y, sellOk) == done
            && Unwound(Unwound(start, sellLeg, y, sellOk), buyLeg, -x, buyOk) == done
            && (x == 0.0 ==> Unwound(start, sellLeg, y, sellOk) == done)
            && (y == 0.0 ==> Unwound(start, buyLeg, -x, buyOk) == done)
            && (x == 0.0 && y == 0.0 ==> start == done)
  {
  }

  lemma ResiduesCompose(residue: Legs, buyLeg: Leg, sellLeg: Leg, x: real, y: real, buyOk: bool, sellOk: bool)
    ensures var done := residue.Plus(buyLeg, if buyOk then 0.0 else x).Plus(sellLeg, if sellOk then 0.0 else -y);
            && Unwound(Unwound(residue, buyLeg, x, !buyOk), sellLeg, -y, !sellOk) == done
            && Unwound(Unwound(residue, sellLeg, -y, !sellOk), buyLeg, x, !buyOk) == done
            && (x == 0.0 ==> Unwound(residue, sellLeg, -y, !sellOk) == done)
            && (y == 0.0 ==> Unwound(residue, buyLeg, x, !buyOk) == done)
            && (x == 0.0 && y == 0.0 ==> residue == done)
  {
  }

  /** Some position read after an entry shows a non-zero size. Instrument B is read only when its
      exchange differs from instrument A's. */
  predicate ShowsAPosition(cfg: Config, env: TradeEnv) {
    || (env.readA.Some? && exists i :: 0 <= i < |env.readA.value| && env.readA.value[i] != 0.0)
    || (cfg.exchangeA != cfg.exchangeB && env.readB.Some?
        && exists i :: 0 <= i < |env.readB.value| && env.readB.value[i] != 0.0)
  }

  function Flattened(d: Desk): Desk { d.(hasPosition := false, longSym := None, shortSym := None) }

  function LongLeg(snap: SpreadSnapshot): Leg { if snap.aIsCheaper then LegA else LegB }

  function ShortLeg(snap: SpreadSnapshot): Leg { if snap.aIsCheaper then LegB else LegA }

  function Opened(d: Desk, cfg: Config, snap: SpreadSnapshot): Desk {
    d.(hasPosition := true, longSym := Some(SymbolOf(cfg, LongLeg(snap))),
       shortSym := Some(SymbolOf(cfg, ShortLeg(snap))))
  }

  function EntryResult(d: Desk, cfg: Config, snap: SpreadSnapshot, env: TradeEnv): (Desk, bool) {
    var long, short := LongLeg(snap), ShortLeg(snap);
    if SpreadRefused(cfg, snap) then (d, false)
    else if cfg.simulation then (Opened(d, cfg, snap), true)
    else if OrdersBlocked(cfg, MidOf(snap, long), MidOf(snap, short), env) then (d, false)
    else
      var traded := AfterOrders(d, long, short, cfg, env);
      if !BothFilled(cfg, env) then (traded, false)
      else if ShowsAPosition(cfg, env) then (Opened(traded, cfg, snap), true)
      else (Flattened(traded), true)
  }

  function ExitResult(d: Desk, cfg: Config, snap: SpreadSnapshot, env: TradeEnv): (Desk, bool) {
    if !Named(d.longSym) || !Named(d.shortSym) then (d, false)
    else if cfg.simulation then (Flattened(d), true)
    else
      var sellLeg, buyLeg := LegOf(cfg, d.longSym.value), LegOf(cfg, d.shortSym.value);
      if OrdersBlocked(cfg, MidOf(snap, buyLeg), MidOf(snap, sellLeg), env) then (d, false)
      else
        var traded := AfterOrders(d, buyLeg, sellLeg, cfg, env);
        if BothFilled(cfg, env) then (Flattened(traded), true) else (traded, false)
  }

  /** A stored symbol that Python counts as true: present and not the empty string. */
  predicate Named(sym: Option<string>) { sym.Some? && sym.value != "" }

  /** The two orders that go out on fetched books, with the limits computed from them. */
  function PairOrders(buyLeg: Leg, sellLeg: Leg, cfg: Config, env: TradeEnv): seq<Order>
    requires env.books.Some?
  {
    var books := env.books.value;
    [Order(buyLeg, Buy, cfg.quantity, VwapLimit(books.0.asks, Buy, cfg.quantity, env.tickBuy, env.bufferTicks)),
     Order(sellLeg, Sell, cfg.quantity, VwapLimit(books.1.bids, Sell, cfg.quantity, env.tickSell, env.bufferTicks))]
  }

  function EntryOrders(cfg: Config, snap: SpreadSnapshot, env: TradeEnv): seq<Order> {
    var long, short := LongLeg(snap), ShortLeg(snap);
    if SpreadRefused(cfg, snap) || cfg.simulation || OrdersBlocked(cfg, MidOf(snap, long), MidOf(snap, short), env)
    then [] else PairOrders(long, short, cfg, env)
  }

  function ExitOrders(d: Desk, cfg: Config, snap: SpreadSnapshot, env: TradeEnv): seq<Order> {
    if !Named(d.longSym) || !Named(d.shortSym) || cfg.simulation then []
    else
      var sellLeg, buyLeg := LegOf(cfg, d.longSym.value), LegOf(cfg, d.shortSym.value);
      if OrdersBlocked(cfg, MidOf(snap, buyLeg), MidOf(snap, sellLeg), env) then []
      else PairOrders(buyLeg, sellLeg, cfg, env)
  }

  /** The levels of the fetched book that this order's limit admits. */
  function Admitted(o: Order, env: TradeEnv): seq<Level>
    requires env.books.Some? && o.limit.At?
  {
    if o.side.Buy? then Within(Buy, env.books.value.0.asks, o.limit.price)
    else Within(Sell, env.books.value.1.bids, o.limit.price)
  }

  /** Every order an entry or an exit sends on published books carries a limit, and the levels it
      admits hold the ordered quantity at an average within the slippage setting of the mid price. */
  lemma SentOrdersAreCovered(d: Desk, cfg: Config, snap: SpreadSnapshot, env: TradeEnv, o: Order)
    requires o in EntryOrders(cfg, snap, env) || o in ExitOrders(d, cfg, snap, env)
    requires env.books.Some? ==>
               WellFormed(Buy, env.books.value.0.asks) && WellFormed(Sell, env.books.value.1.bids)
    requires env.tickBuy >= 0.0 && env.tickSell >= 0.0 && env.bufferTicks >= 0.0
    ensures env.books.Some? && o.quantity == cfg.quantity > 0.0 && o.limit.At? && MidOf(snap, o.leg) != 0.0
    ensures Total(Admitted(o, env)) >= o.quantity
    ensures AdversePct(o.side, Vwap(Admitted(o, env), o.quantity), MidOf(snap, o.leg)) <= cfg.slippagePct
  {
    hide LegBlocked, VwapLimit, Total, Vwap, Within, AdversePct, WellFormed;
    if o in EntryOrders(cfg, snap, env) {
      OrdersCarryCoveringLimits(cfg, MidOf(snap, LongLeg(snap)), MidOf(snap, ShortLeg(snap)), env);
    } else {
      var sellLeg, buyLeg := LegOf(cfg, d.longSym.value), LegOf(cfg, d.shortSym.value);
      OrdersCarryCoveringLimits(cfg, MidOf(snap, buyLeg), MidOf(snap, sellLeg), env);
    }
  }

  // ---------------------------------------------------------------------------
  // The engine object
  // ---------------------------------------------------------------------------

  class ArbitrageEngine {
    var cfg: Config
    var signalCount: int
    var lastSignal: Signal
    var hasPosition: bool
    var longSym: Option<string>
    var shortSym: Option<string>
    var lastExitFailTs: real
    var lastExitSuccessTs: real
    ghost var net: Legs
    ghost var residue: Legs
    ghost var sent: seq<Order>

    ghost function GetDesk(): Desk
      reads this
    {
      Desk(hasPosition, longSym, shortSym, net, residue)
    }

    function GetCounter(): Counter
      reads this
    {
      Counter(signalCount, lastSignal)
    }

    constructor (cfg: Config)
      ensures this.cfg == cfg && GetCounter() == IDLE
      ensures GetDesk() == Desk(false, None, None, Legs(0.0, 0.0), Legs(0.0, 0.0))
      ensures lastExitFailTs == 0.0 && lastExitSuccessTs == 0.0 && sent == []
    {
      this.cfg := cfg;
      signalCount, lastSignal := 0, NoSignal;
      hasPosition, longSym, shortSym := false, None, None;
      lastExitFailTs, lastExitSuccessTs := 0.0, 0.0;
      net, residue, sent := Legs(0.0, 0.0), Legs(0.0, 0.0), [];
    }

    /** evaluate. */
    method Evaluate(snap: SpreadSnapshot) returns (action: Signal)
      modifies `signalCount, `lastSignal
      ensures (action, GetCounter())
           == Confirm(old(GetCounter()), RawSignal(cfg, hasPosition, snap), cfg.confirmations)
    {
      var execAbs := Abs(snap.execSpread);
      var raw := NoSignal;
      if cfg.strategy.DeltaNeutral? {
        if !hasPosition {
          if snap.spreadPct <= cfg.maxSpreadPct { raw := Entry; }
        } else if snap.spreadPct <= cfg.maxSpreadPct {
          raw := Exit;
        }
      } else {
        if !hasPosition {
          if execAbs >= cfg.spreadEntryLow { raw := Entry; }
        } else if execAbs <= cfg.spreadExitHigh {
          raw := Exit;
        }
      }
      if raw != NoSignal && raw == lastSignal {
        signalCount := signalCount + 1;
      } else if raw != NoSignal {
        signalCount := 1;
      } else {
        signalCount := 0;
      }
      lastSignal := raw;
      if raw != NoSignal && signalCount < cfg.confirmations {
        return NoSignal;
      }
      if raw != NoSignal {
        signalCount := 0;
      }
      return raw;
    }

    /** _execute_legs_parallel: both orders run, whatever they report. */
    method ExecuteLegsParallel(buyLeg: Leg, sellLeg: Leg, buyLimit: Limit, sellLimit: Limit, env: TradeEnv)
      returns (bought: TradeResult, sold: TradeResult)
      modifies `net, `sent
      ensures bought == ReportOf(cfg, env.bought).result && sold == ReportOf(cfg, env.sold).result
      ensures net == old(net).Plus(buyLeg, ReportOf(cfg, env.bought).filled)
                             .Plus(sellLeg, -ReportOf(cfg, env.sold).filled)
      ensures sent == old(sent) + [Order(buyLeg, Buy, cfg.quantity, buyLimit),
                                   Order(sellLeg, Sell, cfg.quantity, sellLimit)]
    {
      sent := sent + [Order(buyLeg, Buy, cfg.quantity, buyLimit), Order(sellLeg, Sell, cfg.quantity, sellLimit)];
      bought := ExecuteSingleLeg(buyLeg, Buy, env.bought);
      sold := ExecuteSingleLeg(sellLeg, Sell, env.sold);
    }

    /** _execute_single_leg in its worker thread, and the wait for it. */
    method ExecuteSingleLeg(leg: Leg, side: Side, venue: LegEnv) returns (r: TradeResult)
      modifies `net
      ensures r == ReportOf(cfg, venue).result
      ensures var filled := ReportOf(cfg, venue).filled;
              net == old(net).Plus(leg, if side.Buy? then filled else -filled)
    {
      var filled := venue.filled;
      if venue.timedOut {
        r := FAILED;
      } else if cfg.aggressive {
        var outcome := ExecuteAggressiveLimitOrder(venue.bookFetched, venue.checksPassed, Replies(venue),
                                                   venue.canPoll, Polls(venue), cfg.quantity);
        r := if outcome.Result? then outcome.value else FAILED;
      } else {
        var report := ExecuteLegChunked(cfg.quantity, cfg.chunkSize, ChunkOk(venue));
        r, filled := report.result, report.filled;
      }
      net := net.Plus(leg, if side.Buy? then filled else -filled);
    }

    /** _unwind_leg: a market order that fills completely or not at all. */
    method UnwindLeg(leg: Leg, side: Side, quantity: real, succeeds: bool)
      modifies `net, `residue
      ensures net == Unwound(old(net), leg, if side.Buy? then quantity else -quantity, succeeds)
      ensures residue == Unwound(old(residue), leg, if side.Buy? then -quantity else quantity, !succeeds)
    {
      if succeeds {
        net := net.Plus(leg, if side.Buy? then quantity else -quantity);
      } else {
        residue := residue.Plus(leg, if side.Buy? then -quantity else quantity);
      }
    }

    /** The leg execution and unwind logic that execute_entry and execute_exit both contain. */
    method TradePair(buyLeg: Leg, sellLeg: Leg, buyLimit: Limit, sellLimit: Limit, env: TradeEnv)
      returns (complete: bool)
      modifies `net, `residue, `sent
      ensures GetDesk() == AfterOrders(old(GetDesk()), buyLeg, sellLeg, cfg, env)
      ensures complete <==> BothFilled(cfg, env)
      ensures sent == old(sent) + [Order(buyLeg, Buy, cfg.quantity, buyLimit),
                                   Order(sellLeg, Sell, cfg.quantity, sellLimit)]
    {
      hide Legs.Plus, Unwound, ReportOf;
      ghost var bought, sold := ReportOf(cfg, env.bought), ReportOf(cfg, env.sold);
      ghost var backBought := Reversal(bought.result, sold.result.success, cfg.quantity);
      ghost var backSold := Reversal(sold.result, bought.result.success, cfg.quantity);
      UnwindsCompose(net, buyLeg, sellLeg, bought.filled, sold.filled, backBought, backSold,
                     env.unwindBoughtOk, env.unwindSoldOk);
      ResiduesCompose(residue, buyLeg, sellLeg, backBought, backSold, env.unwindBoughtOk, env.unwindSoldOk);
      var legA, legB := ExecuteLegsParallel(buyLeg, sellLeg, buyLimit, sellLimit, env);
      if !legA.success && !legB.success {
        if legA.tradedQty > 0.0 { UnwindLeg(buyLeg, Sell, legA.tradedQty, env.unwindBoughtOk); }
        if legB.tradedQty > 0.0 { UnwindLeg(sellLeg, Buy, legB.tradedQty, env.unwindSoldOk); }
        return false;
      }
      if !legA.success {
        UnwindLeg(sellLeg, Buy, if legB.tradedQty > 0.0 then legB.tradedQty else cfg.quantity, env.unwindSoldOk);
        if legA.tradedQty > 0.0 { UnwindLeg(buyLeg, Sell, legA.tradedQty, env.unwindBoughtOk); }
        return false;
      }
      if !legB.success {
        UnwindLeg(buyLeg, Sell, if legA.tradedQty > 0.0 then legA.tradedQty else cfg.quantity, env.unwindBoughtOk);
        if legB.tradedQty > 0.0 { UnwindLeg(sellLeg, Buy, legB.tradedQty, env.unwindSoldOk); }
        return false;
      }
      return true;
    }

    /** _soft_sync_after_entry: only an exchange that shows nothing at all resets the state. */
    method SoftSyncAfterEntry(env: TradeEnv)
      modifies `hasPosition, `longSym, `shortSym
      ensures GetDesk() == if ShowsAPosition(cfg, env) then old(GetDesk()) else Flattened(old(GetDesk()))
    {
      var hasAny := false;
      if env.readA.Some? {
        hasAny := exists i :: 0 <= i < |env.readA.value| && env.readA.value[i] != 0.0;
      }
      if cfg.exchangeB != cfg.exchangeA && env.readB.Some? {
        hasAny := hasAny || exists i :: 0 <= i < |env.readB.value| && env.readB.value[i] != 0.0;
      }
      if !hasAny {
        hasPosition, longSym, shortSym := false, None, None;
      }
    }

    /** execute_entry. */
    method ExecuteEntry(snap: SpreadSnapshot, env: TradeEnv) returns (success: bool)
      modifies `hasPosition, `longSym, `shortSym, `net, `residue, `sent
      ensures (GetDesk(), success) == EntryResult(old(GetDesk()), cfg, snap, env)
      ensures sent == old(sent) + EntryOrders(cfg, snap, env)
    {
      hide LegBlocked, AfterOrders, ShowsAPosition, BothFilled, VwapLimit;
      var execAbs := Abs(snap.execSpread);
      if cfg.strategy.DeltaNeutral? {
        if snap.spreadPct > cfg.maxSpreadPct { return false; }
      } else {
        if execAbs < cfg.spreadEntryLow { return false; }
      }
      if execAbs > cfg.maxExecSpread { return false; }

      var long, short := if snap.aIsCheaper then LegA else LegB, if snap.aIsCheaper then LegB else LegA;
      var longSymbol, shortSymbol := SymbolOf(cfg, long), SymbolOf(cfg, short);
      if cfg.simulation {
        hasPosition, longSym, shortSym := true, Some(longSymbol), Some(shortSymbol);
        return true;
      }
      if env.books.None? { return false; }
      var bookLong, bookShort := env.books.value.0, env.books.value.1;
      var longBlocked := LegBlocked(cfg, bookLong.asks, Buy, MidOf(snap, long), env.minBuy);
      var shortBlocked := LegBlocked(cfg, bookShort.bids, Sell, MidOf(snap, short), env.minSell);
      if longBlocked || shortBlocked { return false; }

      var longLimit := ComputeVwapLimit(bookLong, Buy, cfg.quantity, env.tickBuy, env.bufferTicks);
      var shortLimit := ComputeVwapLimit(bookShort, Sell, cfg.quantity, env.tickSell, env.bufferTicks);
      var complete := TradePair(long, short, longLimit, shortLimit, env);
      if !complete { return false; }
      hasPosition, longSym, shortSym := true, Some(longSymbol), Some(shortSymbol);
      SoftSyncAfterEntry(env);
      return true;
    }

    /** execute_exit: the stored symbols decide which leg is sold and which bought back. */
    method ExecuteExit(snap: SpreadSnapshot, env: TradeEnv) returns (success: bool)
      modifies `hasPosition, `longSym, `shortSym, `net, `residue, `sent
      ensures (GetDesk(), success) == ExitResult(old(GetDesk()), cfg, snap, env)
      ensures sent == old(sent) + ExitOrders(old(GetDesk()), cfg, snap, env)
    {
      hide LegBlocked, AfterOrders, ShowsAPosition, BothFilled, VwapLimit;
      if !Named(longSym) || !Named(shortSym) { return false; }
      if cfg.simulation {
        hasPosition, longSym, shortSym := false, None, None;
        return true;
      }
      var sellLeg, buyLeg := LegOf(cfg, longSym.value), LegOf(cfg, shortSym.value);
      if env.books.None? { return false; }
      var bookBuy, bookSell := env.books.value.0, env.books.value.1;
      var sellBlocked := LegBlocked(cfg, bookSell.bids, Sell, MidOf(snap, sellLeg), env.minSell);
      var buyBlocked := LegBlocked(cfg, bookBuy.asks, Buy, MidOf(snap, buyLeg), env.minBuy);
      if sellBlocked || buyBlocked { return false; }

      var buyLimit := ComputeVwapLimit(bookBuy, Buy, cfg.quantity, env.tickBuy, env.bufferTicks);
      var sellLimit := ComputeVwapLimit(bookSell, Sell, cfg.quantity, env.tickSell, env.bufferTicks);
      var complete := TradePair(buyLeg, sellLeg, buyLimit, sellLimit, env);
      if !complete { return false; }
      hasPosition, longSym, shortSym := false, None, None;
      return true;
    }
  }

  // ---------------------------------------------------------------------------
  // The ledger
  // ---------------------------------------------------------------------------

  /** What the engine's fields say the exchange holds on a leg. */
  function Recorded(d: Desk, cfg: Config, leg: Leg): real {
    if !d.hasPosition then 0.0
    else (if d.longSym.Some? && LegOf(cfg, d.longSym.value) == leg then cfg.quantity else 0.0)
         - (if d.shortSym.Some? && LegOf(cfg, d.shortSym.value) == leg then cfg.quantity else 0.0)
  }

  /** The exchange holds what the engine records, plus what failed unwinds left. */
  predicate Balanced(d: Desk, cfg: Config) {
    && d.net.a == Recorded(d, cfg, LegA) + d.residue.a
    && d.net.b == Recorded(d, cfg, LegB) + d.residue.b
  }

  /** Two legs that report honestly but do not complete change the net position only by what their
      failed unwinds left. */
  lemma IncompletePairIsUndone(d: Desk, buyLeg: Leg, sellLeg: Leg, quantity: real, bought: LegReport, sold: LegReport,
                               unwindBoughtOk: bool, unwindSoldOk: bool)
    requires Honest(bought, quantity) && Honest(sold, quantity)
    requires !(bought.result.success && sold.result.success)
    ensures var after := AfterReports(d, buyLeg, sellLeg, quantity, bought, sold, unwindBoughtOk, unwindSoldOk);
            && (forall leg :: after.net.At(leg) - after.residue.At(leg) == d.net.At(leg) - d.residue.At(leg))
            && (unwindBoughtOk && unwindSoldOk ==> after.net == d.net)
  {
    assert bought.filled == Reversal(bought.result, sold.result.success, quantity);
    assert sold.filled == Reversal(sold.result, bought.result.success, quantity);
  }

  /** A completed honest pair moves exactly the quantity on each leg. */
  lemma CompletePairMoves(d: Desk, buyLeg: Leg, sellLeg: Leg, quantity: real, bought: LegReport, sold: LegReport,
                          unwindBoughtOk: bool, unwindSoldOk: bool)
    requires Honest(bought, quantity) && Honest(sold, quantity)
    requires bought.result.success && sold.result.success
    ensures AfterReports(d, buyLeg, sellLeg, quantity, bought, sold, unwindBoughtOk, unwindSoldOk)
         == d.(net := d.net.Plus(buyLeg, quantity).Plus(sellLeg, -quantity))
  {
  }

  /** Both together, for the legs as the venue plays them. */
  lemma PairBalances(d: Desk, buyLeg: Leg, sellLeg: Leg, cfg: Config, env: TradeEnv)
    requires HonestLegs(cfg, env)
    ensures var after := AfterOrders(d, buyLeg, sellLeg, cfg, env);
            && (BothFilled(cfg, env) ==>
                  after == d.(net := d.net.Plus(buyLeg, cfg.quantity).Plus(sellLeg, -cfg.quantity)))
            && (!BothFilled(cfg, env) ==>
                  && after == d.(net := after.net, residue := after.residue)
                  && after.net.a - after.residue.a == d.net.a - d.residue.a
                  && after.net.b - after.residue.b == d.net.b - d.residue.b)
  {
    hide ReportOf, Honest;
    var bought, sold := ReportOf(cfg, env.bought), ReportOf(cfg, env.sold);
    if BothFilled(cfg, env) {
      CompletePairMoves(d, buyLeg, sellLeg, cfg.quantity, bought, sold, env.unwindBoughtOk, env.unwindSoldOk);
    } else {
      IncompletePairIsUndone(d, buyLeg, sellLeg, cfg.quantity, bought, sold, env.unwindBoughtOk, env.unwindSoldOk);
      var after := AfterOrders(d, buyLeg, sellLeg, cfg, env);
      assert after.net.At(LegA) - after.residue.At(LegA) == d.net.At(LegA) - d.residue.At(LegA);
      assert after.net.At(LegB) - after.residue.At(LegB) == d.net.At(LegB) - d.residue.At(LegB);
    }
  }

  /** Both legs report what they fill. */
  predicate HonestLegs(cfg: Config, env: TradeEnv) {
    Honest(ReportOf(cfg, env.bought), cfg.quantity) && Honest(ReportOf(cfg, env.sold), cfg.quantity)
  }

  /** Distinct instrument names route an exit to the legs the entry used; with equal names on
      different exchanges both exit orders go to leg A. */
  lemma ExitRoutesBackExactlyWhen(cfg: Config, snap: SpreadSnapshot)
    ensures LegOf(cfg, SymbolOf(cfg, LongLeg(snap))) == LongLeg(snap)
            && LegOf(cfg, SymbolOf(cfg, ShortLeg(snap))) == ShortLeg(snap)
       <==> cfg.instrumentA != cfg.instrumentB
  {
  }

  /** A live entry from flat keeps the ledger balanced; a completed one does so exactly when the
      position reads that follow show a position. */
  lemma EntryKeepsBalance(d: Desk, cfg: Config, snap: SpreadSnapshot, env: TradeEnv)
    requires !cfg.simulation && cfg.instrumentA != cfg.instrumentB
    requires HonestLegs(cfg, env)
    requires !d.hasPosition && Balanced(d, cfg)
    ensures var (after, success) := EntryResult(d, cfg, snap, env);
            && (!success ==> Balanced(after, cfg) && !after.hasPosition)
            && (success ==> (Balanced(after, cfg) <==> ShowsAPosition(cfg, env)))
            && after.hasPosition == (success && ShowsAPosition(cfg, env))
  {
    hide OrdersBlocked, SpreadRefused, AfterOrders, BothFilled, HonestLegs, ShowsAPosition;
    var long, short := LongLeg(snap), ShortLeg(snap);
    PairBalances(d, long, short, cfg, env);
    if !OrdersBlocked(cfg, MidOf(snap, long), MidOf(snap, short), env) {
      OrdersNeedQuantity(cfg, MidOf(snap, long), MidOf(snap, short), env);
    }
  }

  lemma OrdersNeedQuantity(cfg: Config, buyPrice: real, sellPrice: real, env: TradeEnv)
    requires !OrdersBlocked(cfg, buyPrice, sellPrice, env)
    ensures cfg.quantity > 0.0
  {
    PassingMeansCovered(env.books.value.0.asks, Buy, cfg.quantity, buyPrice, cfg.slippagePct, cfg.minDepthUsd);
  }

  /** A live exit keeps the ledger balanced; when it does not complete, the position stays recorded. */
  lemma ExitKeepsBalance(d: Desk, cfg: Config, snap: SpreadSnapshot, env: TradeEnv)
    requires !cfg.simulation
    requires HonestLegs(cfg, env)
    requires d.hasPosition && Balanced(d, cfg)
    ensures var (after, success) := ExitResult(d, cfg, snap, env);
            && Balanced(after, cfg)
            && after.hasPosition == !success
            && (!success ==> after.longSym == d.longSym && after.shortSym == d.shortSym)
  {
    hide OrdersBlocked, AfterOrders, BothFilled, HonestLegs;
    if Named(d.longSym) && Named(d.shortSym) {
      PairBalances(d, LegOf(cfg, d.shortSym.value), LegOf(cfg, d.longSym.value), cfg, env);
    }
  }

  /** The position fields name two different legs. */
  predicate NamesBothLegs(d: Desk, cfg: Config) {
    d.hasPosition ==>
      d.longSym.Some? && d.shortSym.Some? && LegOf(cfg, d.longSym.value) != LegOf(cfg, d.shortSym.value)
  }

  /** A configuration change that resets the position fields keeps the ledger balanced exactly when
      no position is recorded: one that is held is forgotten, not closed. */
  lemma LegChangeKeepsBalanceExactlyWhen(d: Desk, cfg: Config, changed: Config)
    requires Balanced(d, cfg) && NamesBothLegs(d, cfg) && cfg.quantity > 0.0
    ensures Balanced(Flattened(d), changed) <==> !d.hasPosition
  {
  }

  // ---------------------------------------------------------------------------
  // Which instrument is bought, and when
  // ---------------------------------------------------------------------------

  /** The snapshot's flag agrees with its mids, as get_spread_snapshot computes them: it compares the
      mids before they are rounded, so that either value may go with equal rounded ones. */
  predicate FlagFollowsMids(snap: SpreadSnapshot) {
    if snap.aIsCheaper then snap.midA <= snap.midB else snap.midA >= snap.midB
  }

  /** An entry's orders are a buy on the leg with the lower mid and a sell on the other one. */
  lemma EntryBuysTheCheaper(cfg: Config, snap: SpreadSnapshot, env: TradeEnv)
    requires FlagFollowsMids(snap) && EntryOrders(cfg, snap, env) != []
    ensures var orders := EntryOrders(cfg, snap, env);
            && |orders| == 2 && orders[0].side.Buy? && orders[1].side.Sell?
            && (snap.midA < snap.midB ==> orders[0].leg.LegA? && orders[1].leg.LegB?)
            && (snap.midA > snap.midB ==> orders[0].leg.LegB? && orders[1].leg.LegA?)
            && orders[0].leg != orders[1].leg
  {
    hide OrdersBlocked;
  }

  lemma ValueOfLegs(q: real, midA: real, midB: real)
    ensures q * midA + (-q) * midB == -(q * (midB - midA)) && (-q) * midA + q * midB == -(q * (midA - midB))
  {
  }

  /** A completed live entry from flat whose legs report what they fill adds the quantity on the cheaper
      instrument and takes it away on the dearer one, so that at the mids it earns the quantity times
      their difference; and the recorded long symbol is the cheaper instrument's. */
  lemma EntryGoesLongTheCheaper(d: Desk, cfg: Config, snap: SpreadSnapshot, env: TradeEnv)
    requires FlagFollowsMids(snap) && !cfg.simulation && HonestLegs(cfg, env) && ShowsAPosition(cfg, env)
    requires EntryResult(d, cfg, snap, env).1
    ensures var after := EntryResult(d, cfg, snap, env).0;
            var a, b := after.net.a - d.net.a, after.net.b - d.net.b;
            && after.hasPosition && after.residue == d.residue
            && (snap.midA < snap.midB ==>
                  && a == cfg.quantity && b == -cfg.quantity
                  && after.longSym == Some(cfg.instrumentA) && after.shortSym == Some(cfg.instrumentB))
            && (snap.midA > snap.midB ==>
                  && a == -cfg.quantity && b == cfg.quantity
                  && after.longSym == Some(cfg.instrumentB) && after.shortSym == Some(cfg.instrumentA))
            && a * snap.midA + b * snap.midB == -(cfg.quantity * Abs(snap.midB - snap.midA))
  {
    hide AfterOrders, BothFilled, HonestLegs, ShowsAPosition, OrdersBlocked, SpreadRefused;
    PairBalances(d, LongLeg(snap), ShortLeg(snap), cfg, env);
    ValueOfLegs(cfg.quantity, snap.midA, snap.midB);
  }

  /** An exit after an entry brings the exchange back to where it was. */
  lemma ExitUndoesEntry(d: Desk, cfg: Config, snap: SpreadSnapshot, env: TradeEnv,
                        later: SpreadSnapshot, exit: TradeEnv)
    requires !cfg.simulation && HonestLegs(cfg, env) && HonestLegs(cfg, exit) && ShowsAPosition(cfg, env)
    requires cfg.instrumentA != cfg.instrumentB && EntryResult(d, cfg, snap, env).1
    requires ExitResult(EntryResult(d, cfg, snap, env).0, cfg, later, exit).1
    ensures var after := ExitResult(EntryResult(d, cfg, snap, env).0, cfg, later, exit).0;
            after.net == d.net && after.residue == d.residue && !after.hasPosition
  {
    hide AfterOrders, BothFilled, HonestLegs, ShowsAPosition, OrdersBlocked, SpreadRefused;
    PairBalances(d, LongLeg(snap), ShortLeg(snap), cfg, env);
    PairBalances(EntryResult(d, cfg, snap, env).0, ShortLeg(snap), LongLeg(snap), cfg, exit);
  }

  /** In simulation mode nothing is sent and nothing moves. */
  lemma SimulationNeverTrades(d: Desk, cfg: Config, snap: SpreadSnapshot, env: TradeEnv)
    requires cfg.simulation
    ensures EntryOrders(cfg, snap, env) == [] && ExitOrders(d, cfg, snap, env) == []
    ensures EntryResult(d, cfg, snap, env).0.net == d.net && EntryResult(d, cfg, snap, env).0.residue == d.residue
    ensures ExitResult(d, cfg, snap, env).0.net == d.net && ExitResult(d, cfg, snap, env).0.residue == d.residue
  {
  }

  /** The position of a completed live entry is forgotten exactly when no read that is made shows a
      non-zero size; B is read only when it trades on another exchange than A. */
  lemma EntryIsForgottenExactlyWhen(d: Desk, cfg: Config, snap: SpreadSnapshot, env: TradeEnv)
    requires !cfg.simulation && EntryResult(d, cfg, snap, env).1
    ensures !EntryResult(d, cfg, snap, env).0.hasPosition
       <==> && (env.readA.Some? ==> forall i :: 0 <= i < |env.readA.value| ==> env.readA.value[i] == 0.0)
            && (cfg.exchangeA != cfg.exchangeB && env.readB.Some? ==>
                  forall i :: 0 <= i < |env.readB.value| ==> env.readB.value[i] == 0.0)
  {
    hide AfterOrders, BothFilled, OrdersBlocked, SpreadRefused;
  }

  /** What a leg's book must offer: enough size beyond the exchange's minimum, worth the minimum depth,
      at a cost within the slippage setting of the mid, with the required multiple of the quantity on
      the whole side and on the best level. */
  ghost predicate LegTrades(cfg: Config, levels: seq<Level>, side: Side, mid: real, minSize: real) {
    var q := cfg.quantity;
    && q >= minSize && q <= Total(levels) && Cost(levels, q) >= cfg.minDepthUsd
    && (side.Buy? ==> Cost(levels, q) <= q * mid * (1.0 + cfg.slippagePct / 100.0))
    && (side.Sell? ==> Cost(levels, q) >= q * mid * (1.0 - cfg.slippagePct / 100.0))
    && (cfg.liquidityMultiplier > 1.0 ==> Total(levels) >= q * cfg.liquidityMultiplier)
    && (cfg.minTopBookMult > 0.0 ==> levels != [] && levels[0].size >= q * cfg.minTopBookMult)
  }

  lemma LegTradesExactlyWhen(cfg: Config, levels: seq<Level>, side: Side, mid: real, minSize: real)
    requires WellFormed(side, levels) && cfg.quantity > 0.0 && mid > 0.0
    ensures !LegBlocked(cfg, levels, side, mid, minSize) <==> LegTrades(cfg, levels, side, mid, minSize)
  {
    hide PreTradePasses, Cost, Total;
    PreTradePassesExactlyWhen(levels, side, cfg.quantity, mid, cfg.slippagePct, cfg.minDepthUsd);
    if levels == [] { EmptyTotal(); }
  }

  lemma EmptyTotal()
    ensures Total([]) == 0.0
  {
  }

  /** A live engine sends entry orders exactly when the spread is inside the strategy's range and the
      overall bound, the books were fetched, and the cheaper instrument can be bought and the dearer
      one sold. */
  lemma EntrySendsExactlyWhen(cfg: Config, snap: SpreadSnapshot, env: TradeEnv)
    requires FlagFollowsMids(snap) && snap.midA > 0.0 && snap.midB > 0.0 && cfg.quantity > 0.0 && !cfg.simulation
    requires env.books.Some? ==>
               WellFormed(Buy, env.books.value.0.asks) && WellFormed(Sell, env.books.value.1.bids)
    ensures EntryOrders(cfg, snap, env) != []
       <==> && (if cfg.strategy.DeltaNeutral? then snap.spreadPct <= cfg.maxSpreadPct
                else Wide(snap, cfg.spreadEntryLow))
            && Narrow(snap, cfg.maxExecSpread)
            && env.books.Some?
            && LegTrades(cfg, env.books.value.0.asks, Buy, Min(snap.midA, snap.midB), env.minBuy)
            && LegTrades(cfg, env.books.value.1.bids, Sell, Max(snap.midA, snap.midB), env.minSell)
  {
    hide LegBlocked, LegTrades, WellFormed;
    if env.books.Some? {
      LegTradesExactlyWhen(cfg, env.books.value.0.asks, Buy, Min(snap.midA, snap.midB), env.minBuy);
      LegTradesExactlyWhen(cfg, env.books.value.1.bids, Sell, Max(snap.midA, snap.midB), env.minSell);
    }
  }

  /** A live exit sends its orders exactly when both symbols are stored, the books were fetched, and the
      leg of the long symbol can be sold and the leg of the short symbol bought. */
  lemma ExitSendsExactlyWhen(d: Desk, cfg: Config, snap: SpreadSnapshot, env: TradeEnv)
    requires snap.midA > 0.0 && snap.midB > 0.0 && cfg.quantity > 0.0 && !cfg.simulation
    requires env.books.Some? ==>
               WellFormed(Buy, env.books.value.0.asks) && WellFormed(Sell, env.books.value.1.bids)
    ensures ExitOrders(d, cfg, snap, env) != []
       <==> && d.longSym.Some? && d.longSym.value != "" && d.shortSym.Some? && d.shortSym.value != ""
            && env.books.Some?
            && LegTrades(cfg, env.books.value.1.bids, Sell,
                         if d.longSym.value == cfg.instrumentA then snap.midA else snap.midB, env.minSell)
            && LegTrades(cfg, env.books.value.0.asks, Buy,
                         if d.shortSym.value == cfg.instrumentA then snap.midA else snap.midB, env.minBuy)
  {
    hide LegBlocked, LegTrades, WellFormed;
    if Named(d.longSym) && Named(d.shortSym) && env.books.Some? {
      LegTradesExactlyWhen(cfg, env.books.value.1.bids, Sell,
                           if d.longSym.value == cfg.instrumentA then snap.midA else snap.midB, env.minSell);
      LegTradesExactlyWhen(cfg, env.books.value.0.asks, Buy,
                           if d.shortSym.value == cfg.instrumentA then snap.midA else snap.midB, env.minBuy);
    }
  }
}
