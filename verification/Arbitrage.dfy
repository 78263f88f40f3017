/** The two-instrument arbitrage engine (app/arbitrage.py): signal confirmation, limit prices from
    the book, two parallel legs with arbitrary outcomes and the unwinding of one-sided fills.
    The exchange's net position per instrument is kept as ghost state beside the engine's fields. */
module Arbitrage {
  import opened Books
  import opened Safety
  import opened Executor

  datatype Strategy = DeltaNeutral | Convergence

  datatype Signal = NoSignal | Entry | Exit

  /** Instrument A (XAU) on leg A's exchange, instrument B (PAXG) on leg B's exchange. */
  datatype Leg = LegA | LegB

  datatype Config = Config(
    strategy: Strategy, spreadEntryLow: real, spreadExitHigh: real, maxExecSpread: real, maxSpreadPct: real,
    quantity: real, confirmations: int, simulation: bool, aggressive: bool, chunkSize: real,
    instrumentA: string, instrumentB: string, exchangeA: string, exchangeB: string,
    liquidityMultiplier: real, minTopBookMult: real, slippagePct: real, minDepthUsd: real)

  datatype SpreadSnapshot = SpreadSnapshot(
    midA: real, midB: real, aIsCheaper: bool, execSpread: real, spreadPct: real)

  // ---------------------------------------------------------------------------
  // Signal confirmation
  // ---------------------------------------------------------------------------

  function RawSignal(cfg: Config, hasPosition: bool, snap: SpreadSnapshot): Signal {
    if cfg.strategy.DeltaNeutral? then
      if snap.spreadPct <= cfg.maxSpreadPct then (if hasPosition then Exit else Entry) else NoSignal
    else if !hasPosition then
      if Abs(snap.execSpread) >= cfg.spreadEntryLow then Entry else NoSignal
    else
      if Abs(snap.execSpread) <= cfg.spreadExitHigh then Exit else NoSignal
  }

  datatype Counter = Counter(count: int, last: Signal)

  const IDLE := Counter(0, NoSignal)

  /** The action returned for a raw signal, and the counter left behind. */
  function Confirm(c: Counter, raw: Signal, confirmations: int): (Signal, Counter) {
    if raw.NoSignal? then (NoSignal, Counter(0, raw))
    else
      var n := if raw == c.last then c.count + 1 else 1;
      if n < confirmations then (NoSignal, Counter(n, raw)) else (raw, Counter(0, raw))
  }

  function CounterAfter(raws: seq<Signal>, confirmations: int): Counter {
    if raws == [] then IDLE
    else Confirm(CounterAfter(raws[..|raws| - 1], confirmations), raws[|raws| - 1], confirmations).1
  }

  /** The action at tick i of a sequence of raw signals. */
  function ActionAt(raws: seq<Signal>, i: nat, confirmations: int): Signal
    requires i < |raws|
  {
    Confirm(CounterAfter(raws[..i], confirmations), raws[i], confirmations).0
  }

  /** Length of the run of equal raw signals that ends at tick i. */
  function RunLength(raws: seq<Signal>, i: nat): nat
    requires i < |raws|
  {
    if i > 0 && raws[i - 1] == raws[i] then RunLength(raws, i - 1) + 1 else 1
  }

  /** A configured count below one acts as one. */
  function Needed(confirmations: int): nat { if confirmations < 1 then 1 else confirmations }

  lemma NextRemainder(n: nat, m: nat)
    requires m > 0
    ensures (n + 1) % m == if n % m + 1 == m then 0 else n % m + 1
  {
    var q, r := n / m, n % m;
    assert n == m * q + r;
    if r + 1 == m {
      assert n + 1 == m * (q + 1);
      Remainder(n + 1, m, q + 1, 0);
    } else {
      Remainder(n + 1, m, q, r + 1);
    }
  }

  lemma Remainder(n: nat, m: nat, q: nat, r: nat)
    requires m > 0 && n == m * q + r && r < m
    ensures n % m == r
  {
    assert m * (n / m - q) == r - n % m;
    SmallMultiple(m, n / m - q);
  }

  lemma SmallMultiple(m: int, d: int)
    requires m > 0 && -m < m * d < m
    ensures d == 0
  {
    if d >= 1 {
      Scale(m, 1, d);
    } else if d <= -1 {
      Scale(m, d, -1);
    }
  }

  lemma Scale(m: int, a: int, b: int)
    requires m > 0 && a <= b
    ensures m * a <= m * b
  {
  }

  /** One tick, in terms of the run lengths before and after it. */
  lemma ConfirmStep(c: Counter, raw: Signal, confirmations: int, before: nat, after: nat)
    requires !raw.NoSignal?
    requires if raw == c.last then after == before + 1 && c.count == before % Needed(confirmations) else after == 1
    ensures var rest := after % Needed(confirmations);
            Confirm(c, raw, confirmations) == (if rest == 0 then raw else NoSignal, Counter(rest, raw))
  {
    var n := Needed(confirmations);
    if raw == c.last {
      NextRemainder(before, n);
    } else if n > 1 {
      Remainder(1, n, 0, 1);
    }
  }

  lemma {:induction false} CounterIsRunRemainder(raws: seq<Signal>, i: nat, confirmations: int)
    requires i < |raws|
    ensures var c := CounterAfter(raws[..i + 1], confirmations);
            c.last == raws[i]
            && c.count == if raws[i].NoSignal? then 0 else RunLength(raws, i) % Needed(confirmations)
  {
    hide Needed;
    assert raws[..i + 1][..i] == raws[..i];
    if i > 0 { CounterIsRunRemainder(raws, i - 1, confirmations); }
    if !raws[i].NoSignal? {
      ConfirmStep(CounterAfter(raws[..i], confirmations), raws[i], confirmations,
                  if i > 0 then RunLength(raws, i - 1) else 0, RunLength(raws, i));
    }
  }

  /** evaluate() acts exactly at the ticks where the current run of equal, non-NONE raw signals has
      a length that is a multiple of the configured confirmations, and then returns that signal. */
  lemma ActsAtMultiples(raws: seq<Signal>, i: nat, confirmations: int)
    requires i < |raws|
    ensures ActionAt(raws, i, confirmations)
         == if !raws[i].NoSignal? && RunLength(raws, i) % Needed(confirmations) == 0 then raws[i] else NoSignal
  {
    hide Needed;
    if i > 0 { CounterIsRunRemainder(raws, i - 1, confirmations); }
    if !raws[i].NoSignal? {
      ConfirmStep(CounterAfter(raws[..i], confirmations), raws[i], confirmations,
                  if i > 0 then RunLength(raws, i - 1) else 0, RunLength(raws, i));
    }
  }

  // ---------------------------------------------------------------------------
  // When an entry or an exit is confirmed
  // ---------------------------------------------------------------------------

  /** The executable spread has left the band (-width, width). */
  predicate Wide(s: SpreadSnapshot, width: real) { s.execSpread >= width || s.execSpread <= -width }

  predicate Narrow(s: SpreadSnapshot, width: real) { -width <= s.execSpread <= width }

  function Raws(cfg: Config, hasPosition: bool, snaps: seq<SpreadSnapshot>): seq<Signal> {
    seq(|snaps|, i requires 0 <= i < |snaps| => RawSignal(cfg, hasPosition, snaps[i]))
  }

  /** The tick is one that the strategy wants to trade on. */
  predicate Favourable(cfg: Config, hasPosition: bool, s: SpreadSnapshot) {
    if cfg.strategy.DeltaNeutral? then s.spreadPct <= cfg.maxSpreadPct
    else if hasPosition then Narrow(s, cfg.spreadExitHigh) else Wide(s, cfg.spreadEntryLow)
  }

  /** How many ticks up to and including tick i have been favourable without a break. */
  function Streak(cfg: Config, hasPosition: bool, snaps: seq<SpreadSnapshot>, i: nat): nat
    requires i < |snaps|
  {
    if !Favourable(cfg, hasPosition, snaps[i]) then 0
    else if i == 0 then 1 else Streak(cfg, hasPosition, snaps, i - 1) + 1
  }

  lemma {:induction false} StreakIsRun(cfg: Config, hasPosition: bool, snaps: seq<SpreadSnapshot>, i: nat)
    requires i < |snaps|
    ensures var raws := Raws(cfg, hasPosition, snaps);
            && (raws[i].NoSignal? <==> !Favourable(cfg, hasPosition, snaps[i]))
            && (raws[i].NoSignal? || raws[i] == if hasPosition then Exit else Entry)
            && (!raws[i].NoSignal? ==> RunLength(raws, i) == Streak(cfg, hasPosition, snaps, i))
  {
    if i > 0 { StreakIsRun(cfg, hasPosition, snaps, i - 1); }
  }

  /** Over any ticks without a trade: a flat engine asks for an entry, and one with a position for an
      exit, exactly when the streak of favourable ticks is a positive multiple of the confirmations.
      Favourable is, for convergence, a spread outside the entry band when flat and inside the exit
      band when not, and a small enough percentage for delta-neutral. */
  lemma ActsOnStreaks(cfg: Config, hasPosition: bool, snaps: seq<SpreadSnapshot>, i: nat)
    requires i < |snaps| && cfg.confirmations >= 1
    ensures var action, streak := ActionAt(Raws(cfg, hasPosition, snaps), i, cfg.confirmations),
                                  Streak(cfg, hasPosition, snaps, i);
            action == if streak > 0 && streak % cfg.confirmations == 0 then (if hasPosition then Exit else Entry)
                      else NoSignal
  {
    hide RawSignal, Favourable;
    StreakIsRun(cfg, hasPosition, snaps, i);
    ActsAtMultiples(Raws(cfg, hasPosition, snaps), i, cfg.confirmations);
  }

  // ---------------------------------------------------------------------------
  // Limit prices
  // ---------------------------------------------------------------------------

  datatype Limit = NoLimit | DivisionByZero | At(price: real)

  function VwapLimit(levels: seq<Level>, side: Side, quantity: real, tick: real, bufferTicks: real): Limit {
    if levels == [] || !Covers(levels, quantity) then NoLimit
    else if quantity == 0.0 then DivisionByZero
    else At(if side.Buy? then Worst(levels, quantity) + tick * bufferTicks else Worst(levels, quantity))
  }

  /** _compute_vwap_limit. A zero quantity divides by zero when the average is formed. */
  method ComputeVwapLimit(book: Book, side: Side, quantity: real, tick: real, bufferTicks: real)
    returns (r: Limit)
    ensures r == VwapLimit(SideLevels(book, side), side, quantity, tick, bufferTicks)
  {
    var levels := SideLevels(book, side);
    if levels == [] {
      return NoLimit;
    }
    var remaining, worstPrice := quantity, 0.0;
    ghost var touched := 0;
    assert levels[0..] == levels;
    hide Cost, Filled, Reach, Covers, Times;
    for i := 0 to |levels|
      invariant touched == i && (i > 0 ==> remaining > 0.0 && worstPrice == levels[i - 1].price)
      invariant Reach(levels, quantity) == i + Reach(levels[i..], remaining)
      invariant Covers(levels, quantity) <==> Covers(levels[i..], remaining)
    {
      SweepStepAt(levels, i, remaining);
      remaining := remaining - Min(remaining, levels[i].size);
      worstPrice := levels[i].price;
      touched := i + 1;
      if remaining <= 0.0 {
        break;
      }
    }
    assert levels[|levels|..] == [];
    EmptySweep(remaining);
    if remaining > 0.0 {
      return NoLimit;
    }
    if quantity == 0.0 {
      return DivisionByZero;
    }
    if side.Buy? {
      return At(worstPrice + tick * bufferTicks);
    } else {
      return At(worstPrice);
    }
  }

  /** After a passed pre-trade check on the same book a limit exists; the levels at or inside it
      hold the quantity, and sweeping only those still averages within the slippage bound. */
  lemma PassedChecksGiveALimit(levels: seq<Level>, side: Side, q: real, expected: real,
                               maxPct: real, minDepth: real, tick: real, bufferTicks: real)
    requires WellFormed(side, levels) && tick * bufferTicks >= 0.0
    requires PreTradePasses(levels, side, q, expected, maxPct, minDepth)
    ensures var limit := VwapLimit(levels, side, q, tick, bufferTicks);
            && limit.At?
            && Total(Within(side, levels, limit.price)) >= q
            && Vwap(Within(side, levels, limit.price), q) == Vwap(levels, q)
            && AdversePct(side, Vwap(Within(side, levels, limit.price), q), expected) <= maxPct
  {
    hide Cost, Filled, Covers, Reach;
    PassingMeansCovered(levels, side, q, expected, maxPct, minDepth);
    var limit := VwapLimit(levels, side, q, tick, bufferTicks);
    LimitKeepsSweep(side, levels, q, limit.price);
    WithinSizes(side, levels, limit.price);
    FilledIsMin(Within(side, levels, limit.price), q);
  }

  /** On a published side a positive quantity gets a limit exactly when the side holds it. Without the
      buffer the limit is the tightest one: a limit admits levels that hold the quantity exactly when
      it is no tighter. The buffer moves a buy's limit up by that many ticks, and a sell's not at all. */
  lemma LimitIsTightest(levels: seq<Level>, side: Side, q: real, tick: real, bufferTicks: real, p: real)
    requires BestFirst(side, levels) && NonNegativeSizes(levels) && q > 0.0
    ensures var limit := VwapLimit(levels, side, q, tick, bufferTicks);
            && (limit.At? <==> levels != [] && q <= Total(levels))
            && (limit.At? ==>
                  var tightest := limit.price - (if side.Buy? then tick * bufferTicks else 0.0);
                  Total(Within(side, levels, p)) >= q <==> NoWorse(side, tightest, p))
  {
    hide Covers, Reach, Within;
    FilledIsMin(levels, q);
    CoversNeedsLevels(levels, q);
    WithinHoldsExactlyWhen(side, levels, q, p);
  }

  /** walk_book, the quantity check, the depth check and the limit computation agree on whether a
      positive quantity is covered. */
  lemma FourWalksAgree(levels: seq<Level>, side: Side, q: real, tick: real, bufferTicks: real)
    requires q > 0.0
    ensures var covered := q - Filled(levels, q) <= 0.0;
            && (covered <==> QuantitySufficient(levels, q))
            && (covered <==> DepthSufficient(levels, q, Cost(levels, q)))
            && (covered <==> VwapLimit(levels, side, q, tick, bufferTicks).At?)
  {
    ChecksAgreeOnDepth(levels, q);
  }

  // ---------------------------------------------------------------------------
  // Chunked market orders
  // ---------------------------------------------------------------------------

  /** A leg's report together with what the exchange really filled. */
  datatype LegReport = LegReport(result: TradeResult, filled: real)

  predicate Honest(leg: LegReport, quantity: real) { Accounts(leg.result, leg.filled, quantity) }

  /** Upper bound on the chunks still to send. */
  function ChunksLeft(remaining: real, chunk: real): int
    requires chunk > 0.0
  {
    (remaining / chunk).Floor
  }

  lemma FewerChunks(remaining: real, chunk: real)
    requires 0.0 < chunk <= remaining
    ensures ChunksLeft(remaining - chunk, chunk) == ChunksLeft(remaining, chunk) - 1
    ensures ChunksLeft(remaining, chunk) >= 1
  {
    var n := remaining / chunk;
    assert n * chunk == remaining;
    assert (n - 1.0) * chunk == remaining - chunk;
    QuotientOf(remaining - chunk, chunk, n - 1.0);
    QuotientMono(1.0, 1.0, remaining, chunk);
  }

  /** The chunks from number k on, with `remaining` still to trade. */
  function Chunks(total: real, chunk: real, chunkOk: nat -> bool, k: nat, remaining: real): LegReport
    requires chunk > 0.0
    decreases if remaining <= 0.0 then 0 else if remaining < chunk then 1 else ChunksLeft(remaining, chunk) + 1
  {
    if remaining <= 0.0 then LegReport(TradeResult(true, 0.0), total)
    else if !chunkOk(k) then LegReport(FAILED, total - remaining)
    else
      ChunksShrink(remaining, chunk);
      Chunks(total, chunk, chunkOk, k + 1, remaining - Min(chunk, remaining))
  }

  lemma ChunksShrink(remaining: real, chunk: real)
    requires chunk > 0.0
    ensures remaining >= chunk ==>
              ChunksLeft(remaining - chunk, chunk) == ChunksLeft(remaining, chunk) - 1
              && ChunksLeft(remaining, chunk) >= 1
  {
    if remaining >= chunk { FewerChunks(remaining, chunk); }
  }

  /** Chunk k succeeds, filling its size, iff chunkOk(k). */
  function ChunkedLeg(total: real, chunk: real, chunkOk: nat -> bool): LegReport {
    if chunk <= 0.0 || chunk >= total then
      LegReport(MarketOrderResult(true, true, chunkOk(0), total), if chunkOk(0) then total else 0.0)
    else Chunks(total, chunk, chunkOk, 0, total)
  }

  /** _execute_leg_chunked. */
  method ExecuteLegChunked(total: real, chunkSize: real, chunkOk: nat -> bool) returns (leg: LegReport)
    ensures leg == ChunkedLeg(total, chunkSize, chunkOk)
  {
    if chunkSize <= 0.0 || chunkSize >= total {
      return LegReport(MarketOrderResult(true, true, chunkOk(0), total), if chunkOk(0) then total else 0.0);
    }
    var remaining, chunkNum := total, 0;
    while remaining > 0.0
      invariant ChunkedLeg(total, chunkSize, chunkOk) == Chunks(total, chunkSize, chunkOk, chunkNum, remaining)
      decreases
        if remaining <= 0.0 then 0 else if remaining < chunkSize then 1 else ChunksLeft(remaining, chunkSize) + 1
    {
      var qty := Min(chunkSize, remaining);
      if !chunkOk(chunkNum) {
        return LegReport(FAILED, total - remaining);
      }
      ChunksShrink(remaining, chunkSize);
      chunkNum := chunkNum + 1;
      remaining := remaining - qty;
    }
    return LegReport(TradeResult(true, 0.0), total);
  }

  /** The total has a chunk number k. */
  predicate HasChunk(total: real, chunk: real, k: nat) { Times(k as real, chunk) < total }

  /** Every chunk of the total succeeds. */
  ghost predicate AllChunksOk(total: real, chunk: real, chunkOk: nat -> bool) {
    forall k: nat :: HasChunk(total, chunk, k) ==> chunkOk(k)
  }

  lemma OneChunkMore(k: nat, chunk: real)
    ensures Times((k + 1) as real, chunk) == Times(k as real, chunk) + chunk
  {
  }

  lemma ChunksUpTo(k: nat, m: nat, chunk: real)
    requires k <= m && chunk > 0.0
    ensures Times(k as real, chunk) <= Times(m as real, chunk)
  {
    MulMono(k as real, m as real, chunk);
  }

  /** From chunk k on, with the first k all successful. */
  lemma {:induction false} ChunksReport(total: real, chunk: real, chunkOk: nat -> bool, k: nat, remaining: real)
    requires chunk > 0.0 && remaining <= total
    requires remaining > 0.0 ==> remaining == total - Times(k as real, chunk)
    requires remaining <= 0.0 ==> remaining == 0.0 && total <= Times(k as real, chunk)
    ensures var leg := Chunks(total, chunk, chunkOk, k, remaining);
            && leg.result.tradedQty == 0.0
            && (leg.result.success ==> leg.filled == total)
            && (!leg.result.success ==> total - remaining <= leg.filled < total)
            && (!leg.result.success && remaining > 0.0 && chunkOk(k) ==> leg.filled > total - remaining)
            && (leg.result.success
                <==> forall j: nat :: k <= j && HasChunk(total, chunk, j) ==> chunkOk(j))
    decreases if remaining <= 0.0 then 0 else if remaining < chunk then 1 else ChunksLeft(remaining, chunk) + 1
  {
    hide Times;
    if remaining <= 0.0 {
      forall j: nat | k <= j ensures !HasChunk(total, chunk, j) { ChunksUpTo(k, j, chunk); }
    } else if chunkOk(k) {
      ChunksShrink(remaining, chunk);
      OneChunkMore(k, chunk);
      ChunksReport(total, chunk, chunkOk, k + 1, remaining - Min(chunk, remaining));
    }
  }

  /** One chunked leg reports its fill honestly exactly when it is a single order, or its first
      chunk fails, or every chunk it has to send succeeds: a later failure hides what was filled. */
  lemma ChunkedLegIsHonestExactlyWhen(total: real, chunk: real, chunkOk: nat -> bool)
    ensures Honest(ChunkedLeg(total, chunk, chunkOk), total)
       <==> chunk <= 0.0 || chunk >= total || !chunkOk(0) || AllChunksOk(total, chunk, chunkOk)
  {
    if 0.0 < chunk < total {
      ZeroChunks(chunk);
      ChunksReport(total, chunk, chunkOk, 0, total);
    }
  }

  lemma ZeroChunks(chunk: real)
    ensures Times(0 as real, chunk) == 0.0
  {
  }

  /** Whatever the chunks do, the leg is honest exactly when it is sent as a single order. */
  lemma ChunkingIsHonestExactlyWhen(total: real, chunk: real)
    ensures (forall chunkOk: nat -> bool :: Honest(ChunkedLeg(total, chunk, chunkOk), total))
       <==> chunk <= 0.0 || chunk >= total
  {
    forall chunkOk: nat -> bool | chunk <= 0.0 || chunk >= total
      ensures Honest(ChunkedLeg(total, chunk, chunkOk), total)
    {
      ChunkedLegIsHonestExactlyWhen(total, chunk, chunkOk);
    }
    if 0.0 < chunk < total {
      var onlyFirst := (k: nat) => k == 0;
      OneChunk(chunk);
      ChunkedLegIsHonestExactlyWhen(total, chunk, onlyFirst);
      assert !AllChunksOk(total, chunk, onlyFirst) by { assert HasChunk(total, chunk, 1) && !onlyFirst(1); }
      assert !Honest(ChunkedLeg(total, chunk, onlyFirst), total);
    }
  }

  lemma OneChunk(chunk: real)
    ensures Times(1 as real, chunk) == chunk
  {
  }

  /** A zero quantity is covered by any level and then divides by zero. */
  lemma ZeroQuantityDivides(levels: seq<Level>, side: Side, tick: real, bufferTicks: real)
    requires NonNegativeSizes(levels)
    ensures VwapLimit(levels, side, 0.0, tick, bufferTicks) == if levels == [] then NoLimit else DivisionByZero
  {
  }
}
