/** NADO fill-or-kill market orders (app/nado_client.py): fixed-point encoding, rounding to the
    instrument's increments, the depth walk and the limit price. Decimals are exact reals. */
module NadoClient {
  import opened Wrappers
  import opened Books

  const X18: real := 1000000000000000000.0

  // ---------------------------------------------------------------------------
  // Rounding
  // ---------------------------------------------------------------------------

  function Ceil(x: real): int { -((-x).Floor) }

  /** Python's int() and Decimal's ROUND_DOWN. */
  function TowardZero(x: real): int { if x >= 0.0 then x.Floor else -((-x).Floor) }

  /** Decimal's ROUND_UP. */
  function AwayFromZero(x: real): int { if x >= 0.0 then Ceil(x) else -Ceil(-x) }

  /** x is a whole number. */
  predicate IsWhole(x: real) { x == x.Floor as real }

  function FromX18(value: int): real { value as real / X18 }

  function ToX18(value: real): int { TowardZero(value * X18) }

  /** Encoding loses nothing exactly on multiples of 10^-18. */
  lemma X18RoundTrip(value: real)
    ensures FromX18(ToX18(value)) == value <==> IsWhole(value * X18)
  {
    var y := value * X18;
    assert value == y / X18;
    assert FromX18(ToX18(value)) == TowardZero(y) as real / X18;
    if y < 0.0 && IsWhole(y) { assert (-y).Floor == -(y.Floor); }
    if FromX18(ToX18(value)) == value {
      assert TowardZero(y) as real == y;
    }
  }

  /** Decoding then encoding is the identity on every encoded value. */
  lemma X18Decoded(value: int)
    ensures ToX18(FromX18(value)) == value
  {
    assert FromX18(value) * X18 == value as real;
  }

  lemma MultipleIsWhole(k: int, unit: real)
    requires IsWhole(unit * X18)
    ensures IsWhole(Times(k as real, unit) * X18)
  {
    var u := (unit * X18).Floor;
    WholeProduct(k, u);
    Regroup(k as real, unit, u as real);
  }

  lemma WholeProduct(k: int, u: int)
    ensures IsWhole(Times(k as real, u as real))
  {
    assert Times(k as real, u as real) == (k * u) as real;
    assert ((k * u) as real).Floor == k * u;
  }

  lemma Regroup(k: real, unit: real, u: real)
    requires unit * X18 == u
    ensures Times(k, unit) * X18 == Times(k, u)
  {
    assert unit == u / X18;
    assert k * unit == (k * u) / X18;
  }

  /** _round_qty: down to the size increment. */
  function RoundQty(amount: real, step: real): real {
    if step > 0.0 then Times(TowardZero(amount / step) as real, step) else amount
  }

  // A grid point k * unit next to x = n * unit.

  lemma Spread(n: real, k: real, unit: real)
    ensures Times(n, unit) - Times(k, unit) == Times(n - k, unit)
  {
  }

  lemma Fraction(d: real, unit: real)
    requires 0.0 <= d < 1.0 && unit > 0.0
    ensures 0.0 <= Times(d, unit) < unit
  {
    assert (1.0 - d) * unit > 0.0;
  }

  lemma GridBelow(x: real, n: real, k: real, unit: real)
    requires unit > 0.0 && Times(n, unit) == x && k <= n < k + 1.0
    ensures x - unit < Times(k, unit) <= x
  {
    hide Times;
    Spread(n, k, unit);
    Fraction(n - k, unit);
  }

  lemma GridAbove(x: real, n: real, k: real, unit: real)
    requires unit > 0.0 && Times(n, unit) == x && n <= k < n + 1.0
    ensures x <= Times(k, unit) < x + unit
  {
    hide Times;
    Spread(k, n, unit);
    Fraction(k - n, unit);
  }

  lemma QuotientSign(x: real, unit: real)
    requires unit > 0.0
    ensures Times(x / unit, unit) == x
    ensures x >= 0.0 <==> x / unit >= 0.0
  {
    var n := x / unit;
    assert n * unit == x;
    if n >= 0.0 { MulMono(0.0, n, unit); }
  }

  lemma RoundQtyBounds(amount: real, step: real)
    requires amount >= 0.0
    ensures 0.0 <= RoundQty(amount, step) <= amount
    ensures step > 0.0 ==> amount - step < RoundQty(amount, step)
  {
    hide Times;
    if step > 0.0 {
      var n := amount / step;
      QuotientSign(amount, step);
      GridBelow(amount, n, TowardZero(n) as real, step);
      NonNegativeProduct(TowardZero(n) as real, step);
    }
  }

  lemma NonNegativeProduct(a: real, b: real)
    requires a >= 0.0 && b >= 0.0
    ensures Times(a, b) >= 0.0
  {
  }

  // ---------------------------------------------------------------------------
  // create_market_order
  // ---------------------------------------------------------------------------

  datatype OrderResult =
    | Placed(amount: real, limit: real, priceX18: int, amountX18: int)
    | NoLevels
    | InsufficientDepth
    | BeyondBand
    | ZeroTick   // dividing by a zero tick raises in the source

  const DEFAULT_PCT: real := 0.5

  function Band(slippagePct: Option<real>): real {
    (if slippagePct.Some? then slippagePct.value else DEFAULT_PCT) / 100.0
  }

  /** The unrounded limit and its tick-aligned form. */
  function RawLimit(side: Side, best: real, worst: real, band: real): real {
    if side.Buy? then Times(Max(worst, best), 1.0 + band) else Times(Min(worst, best), 1.0 - band)
  }

  function AlignedLimit(side: Side, raw: real, tick: real): real
    requires tick != 0.0
  {
    Times((if side.Buy? then AwayFromZero(raw / tick) else TowardZero(raw / tick)) as real, tick)
  }

  function OrderOutcome(book: Book, side: Side, requested: real, slippagePct: Option<real>,
                        step: real, tick: real): OrderResult
  {
    var levels, amount, band := SideLevels(book, side), RoundQty(requested, step), Band(slippagePct);
    if levels == [] then NoLevels
    else if !Covers(levels, amount) then InsufficientDepth
    else
      var best, worst := levels[0].price, Worst(levels, amount);
      var cap := if side.Buy? then Times(best, 1.0 + band) else Times(best, 1.0 - band);
      if !NoWorse(side, worst, cap) then BeyondBand
      else if tick == 0.0 then ZeroTick
      else
        var limit := AlignedLimit(side, RawLimit(side, best, worst, band), tick);
        Placed(amount, limit, ToX18(limit), ToX18(if side.Buy? then amount else -amount))
  }

  /** create_market_order up to the signed payload. */
  method CreateMarketOrder(book: Book, side: Side, requested: real, slippagePct: Option<real>,
                           step: real, tick: real)
    returns (r: OrderResult)
    ensures r == OrderOutcome(book, side, requested, slippagePct, step, tick)
  {
    hide Cost, Filled, Covers, Reach, RoundQty, AlignedLimit, ToX18, Times;
    var amount := RoundQty(requested, step);
    var band := Band(slippagePct);
    var levels := SideLevels(book, side);
    if levels == [] {
      return NoLevels;
    }
    var best := levels[0].price;
    var cumSize, worst := 0.0, best;
    ghost var consumed := 0;
    assert levels[0..] == levels;
    for i := 0 to |levels|
      invariant consumed == i && (i > 0 ==> cumSize < amount && worst == levels[i - 1].price)
      invariant Reach(levels, amount) == i + Reach(levels[i..], amount - cumSize)
      invariant Covers(levels, amount) <==> Covers(levels[i..], amount - cumSize)
    {
      SweepStepAt(levels, i, amount - cumSize);
      cumSize := cumSize + levels[i].size;
      worst := levels[i].price;
      consumed := i + 1;
      if cumSize >= amount {
        break;
      }
    }
    assert levels[|levels|..] == [];
    EmptySweep(amount - cumSize);
    if cumSize < amount {
      return InsufficientDepth;
    }
    var finalLimit;
    if side.Buy? {
      var bandCap := Times(best, 1.0 + band);
      if worst > bandCap {
        return BeyondBand;
      }
      if tick == 0.0 {
        return ZeroTick;
      }
      var raw := Times(Max(worst, best), 1.0 + band);
      finalLimit := AlignedLimit(Buy, raw, tick);
    } else {
      var bandCap := Times(best, 1.0 - band);
      if worst < bandCap {
        return BeyondBand;
      }
      if tick == 0.0 {
        return ZeroTick;
      }
      var raw := Times(Min(worst, best), 1.0 - band);
      finalLimit := AlignedLimit(Sell, raw, tick);
    }
    var orderAmount := if side.Buy? then amount else -amount;
    r := Placed(amount, finalLimit, ToX18(finalLimit), ToX18(orderAmount));
  }

  lemma AlignUp(raw: real, tick: real)
    requires raw >= 0.0 && tick > 0.0
    ensures raw <= AlignedLimit(Buy, raw, tick) < raw + tick
  {
    hide Times;
    var n := raw / tick;
    QuotientSign(raw, tick);
    GridAbove(raw, n, Ceil(n) as real, tick);
  }

  lemma AlignDown(raw: real, tick: real)
    requires tick > 0.0
    ensures raw >= 0.0 ==> raw - tick < AlignedLimit(Sell, raw, tick) <= raw
    ensures raw < 0.0 ==> AlignedLimit(Sell, raw, tick) <= 0.0
  {
    hide Times;
    var n := raw / tick;
    QuotientSign(raw, tick);
    if raw >= 0.0 {
      GridBelow(raw, n, n.Floor as real, tick);
    } else {
      NonPositiveProduct(TowardZero(n) as real, tick);
    }
  }

  lemma NonPositiveProduct(a: real, b: real)
    requires a <= 0.0 && b >= 0.0
    ensures Times(a, b) <= 0.0
  {
  }

  lemma BandIsNonNegative(side: Side, best: real, worst: real, band: real)
    requires best > 0.0 && NoWorse(side, best, worst)
    requires NoWorse(side, worst, if side.Buy? then Times(best, 1.0 + band) else Times(best, 1.0 - band))
    ensures band >= 0.0
  {
    assert Times(best, 1.0 + band) == best + best * band;
    assert Times(best, 1.0 - band) == best - best * band;
    if band < 0.0 { NegativeProduct(best, band); }
  }

  lemma NegativeProduct(a: real, b: real)
    requires a > 0.0 && b < 0.0
    ensures a * b < 0.0
  {
  }

  lemma BandSquared(best: real, worst: real, f: real)
    requires f >= 0.0
    ensures worst <= Times(best, f) ==> Times(worst, f) <= best * f * f
    ensures worst >= Times(best, f) ==> Times(worst, f) >= best * f * f
  {
    if worst <= best * f { MulMono(worst, best * f, f); } else { MulMono(best * f, worst, f); }
  }

  lemma ScaledBy(worst: real, f: real)
    requires worst > 0.0
    ensures f >= 1.0 ==> worst <= Times(worst, f)
    ensures f <= 1.0 ==> Times(worst, f) <= worst
  {
    if f >= 1.0 { MulMono(1.0, f, worst); } else { MulMono(f, 1.0, worst); }
  }

  lemma BuyLimitArithmetic(best: real, worst: real, band: real, tick: real)
    requires 0.0 < best <= worst <= Times(best, 1.0 + band) && band >= 0.0 && tick > 0.0
    ensures var limit := AlignedLimit(Buy, RawLimit(Buy, best, worst, band), tick);
            worst <= limit < best * (1.0 + band) * (1.0 + band) + tick
  {
    hide Times, AlignedLimit;
    BandSquared(best, worst, 1.0 + band);
    ScaledBy(worst, 1.0 + band);
    AlignUp(RawLimit(Buy, best, worst, band), tick);
  }

  lemma SellLimitArithmetic(best: real, worst: real, band: real, tick: real)
    requires best >= worst > 0.0 && worst >= Times(best, 1.0 - band) && band >= 0.0 && tick > 0.0
    ensures var limit := AlignedLimit(Sell, RawLimit(Sell, best, worst, band), tick);
            limit <= worst && (band <= 1.0 ==> best * (1.0 - band) * (1.0 - band) - tick < limit)
  {
    hide Times, AlignedLimit;
    ScaledBy(worst, 1.0 - band);
    AlignDown(RawLimit(Sell, best, worst, band), tick);
    if band <= 1.0 {
      BandSquared(best, worst, 1.0 - band);
      NonNegativeProduct(worst, 1.0 - band);
    }
  }

  /** If the order is placed on a published book, its tick-aligned limit reaches every level the
      walk consumed, so the levels at or inside the limit fill the whole amount at the price the
      unlimited sweep would pay; and the limit is within one tick of best * (1 +- band)^2
      (on the sell side for bands up to 100%). A negative slippage setting never places an order. */
  lemma PlacedLimitFillsTheOrder(book: Book, side: Side, requested: real, slippagePct: Option<real>,
                                 step: real, tick: real)
    requires WellFormed(side, SideLevels(book, side)) && tick > 0.0
    requires OrderOutcome(book, side, requested, slippagePct, step, tick).Placed?
    ensures var r, levels := OrderOutcome(book, side, requested, slippagePct, step, tick), SideLevels(book, side);
            && r.amount == RoundQty(requested, step)
            && NoWorse(side, Worst(levels, r.amount), r.limit)
            && Covers(Within(side, levels, r.limit), r.amount)
            && Filled(Within(side, levels, r.limit), r.amount) == r.amount
            && Cost(Within(side, levels, r.limit), r.amount) == Cost(levels, r.amount)
    ensures var r, best, band := OrderOutcome(book, side, requested, slippagePct, step, tick),
                                 SideLevels(book, side)[0].price, Band(slippagePct);
            && band >= 0.0
            && (side.Buy? ==> best <= r.limit < best * (1.0 + band) * (1.0 + band) + tick)
            && (side.Sell? && band <= 1.0 ==> best * (1.0 - band) * (1.0 - band) - tick < r.limit <= best)
  {
    hide Cost, Filled, Covers, Reach, AlignedLimit, RawLimit, RoundQty, ToX18, Band, Times;
    var r, levels := OrderOutcome(book, side, requested, slippagePct, step, tick), SideLevels(book, side);
    var best, worst, band := levels[0].price, Worst(levels, r.amount), Band(slippagePct);
    ReachBounds(levels, r.amount);
    BandIsNonNegative(side, best, worst, band);
    if side.Buy? {
      BuyLimitArithmetic(best, worst, band, tick);
    } else {
      SellLimitArithmetic(best, worst, band, tick);
    }
    LimitKeepsSweep(side, levels, r.amount, r.limit);
  }

  /** An order that is placed: 1.7 rounds down to 1.5, bought at most at half a percent above 100. */
  lemma SomeOrderIsPlaced()
    ensures OrderOutcome(Book([], [Level(100.0, 2.0)]), Buy, 1.7, None, 0.5, 0.5)
         == Placed(1.5, 100.5, 100500000000000000000, 1500000000000000000)
  {
    var asks := [Level(100.0, 2.0)];
    assert RoundQty(1.7, 0.5) == 1.5 by { assert 1.7 / 0.5 == 3.4; }
    assert Covers(asks, 1.5) && Worst(asks, 1.5) == 100.0;
    assert RawLimit(Buy, 100.0, 100.0, 0.005) == 100.5;
    assert AlignedLimit(Buy, 100.5, 0.5) == 100.5 by { assert 100.5 / 0.5 == 201.0; }
  }

  /** With a tick and a size increment on the 10^-18 grid, the encoded price and amount decode to
      exactly the limit and the signed amount. */
  lemma PlacedEncodingIsExact(book: Book, side: Side, requested: real, slippagePct: Option<real>,
                              step: real, tick: real)
    requires step > 0.0 && IsWhole(step * X18) && IsWhole(tick * X18)
    requires OrderOutcome(book, side, requested, slippagePct, step, tick).Placed?
    ensures var r := OrderOutcome(book, side, requested, slippagePct, step, tick);
            && FromX18(r.priceX18) == r.limit
            && FromX18(r.amountX18) == if side.Buy? then r.amount else -r.amount
  {
    hide Covers, ToX18, FromX18, IsWhole, RawLimit, Times;
    var r, levels := OrderOutcome(book, side, requested, slippagePct, step, tick), SideLevels(book, side);
    var raw := RawLimit(side, levels[0].price, Worst(levels, r.amount), Band(slippagePct));
    MultipleIsWhole(if side.Buy? then AwayFromZero(raw / tick) else TowardZero(raw / tick), tick);
    X18RoundTrip(r.limit);
    var k := TowardZero(requested / step);
    MultipleIsWhole(k, step);
    MultipleIsWhole(-k, step);
    NegatedFactor(k as real, step);
    X18RoundTrip(r.amount);
    X18RoundTrip(-r.amount);
  }

  lemma NegatedFactor(k: real, step: real)
    ensures Times(-k, step) == -Times(k, step)
  {
  }

  // ---------------------------------------------------------------------------
  // Which orders are placed, and at what limit
  // ---------------------------------------------------------------------------

  /** The setting in percent; half a percent when none is given. */
  function Pct(slippagePct: Option<real>): real { if slippagePct.Some? then slippagePct.value else 0.5 }

  /** The furthest price the order may consume. */
  function BandPrice(side: Side, best: real, pct: real): real {
    if side.Buy? then best * (1.0 + pct / 100.0) else best * (1.0 - pct / 100.0)
  }

  /** An order with a positive rounded amount is refused for lack of depth exactly when the side holds
      less, and placed exactly when the levels within pct percent of the best price hold the amount. */
  lemma PlacedExactlyWhen(book: Book, side: Side, requested: real, slippagePct: Option<real>, step: real, tick: real)
    requires WellFormed(side, SideLevels(book, side)) && tick > 0.0 && RoundQty(requested, step) > 0.0
    ensures var r, levels, amount := OrderOutcome(book, side, requested, slippagePct, step, tick),
                                     SideLevels(book, side), RoundQty(requested, step);
            && (r.NoLevels? <==> levels == [])
            && (r.InsufficientDepth? <==> levels != [] && amount > Total(levels))
            && (r.Placed?
                <==> (&& levels != []
                      && Total(Within(side, levels, BandPrice(side, levels[0].price, Pct(slippagePct)))) >= amount))
  {
    hide Cost, Filled, Covers, Reach, RoundQty, AlignedLimit, RawLimit, ToX18, Within;
    var levels, amount := SideLevels(book, side), RoundQty(requested, step);
    if levels != [] {
      FilledIsMin(levels, amount);
      WithinHoldsExactlyWhen(side, levels, amount, BandPrice(side, levels[0].price, Pct(slippagePct)));
    }
  }

  lemma WholeMultiple(k: int, unit: real)
    requires unit > 0.0
    ensures IsWhole(Times(k as real, unit) / unit)
  {
    assert Times(k as real, unit) / unit == k as real by { Cancel(k as real, 1.0, unit); }
    assert (k as real).Floor == k;
  }

  lemma BuyLimitIsTight(best: real, worst: real, f: real, tick: real)
    requires 0.0 < best <= worst && f >= 0.0 && tick > 0.0
    ensures var limit := AlignedLimit(Buy, RawLimit(Buy, best, worst, f), tick);
            Times(worst, 1.0 + f) <= limit < Times(worst, 1.0 + f) + tick
  {
    hide Times, AlignedLimit;
    NonNegativeProduct(worst, 1.0 + f);
    AlignUp(RawLimit(Buy, best, worst, f), tick);
  }

  lemma SellLimitIsTight(best: real, worst: real, f: real, tick: real)
    requires 0.0 < worst <= best && 0.0 <= f <= 1.0 && tick > 0.0
    ensures var limit := AlignedLimit(Sell, RawLimit(Sell, best, worst, f), tick);
            Times(worst, 1.0 - f) - tick < limit <= Times(worst, 1.0 - f)
  {
    hide Times, AlignedLimit;
    NonNegativeProduct(worst, 1.0 - f);
    AlignDown(RawLimit(Sell, best, worst, f), tick);
  }

  /** The limit lies a whole band beyond the deepest level consumed: rounded up by less than a tick for
      a buy, rounded down by less than a tick for a sell. */
  lemma PlacedLimitAddsTheBand(book: Book, side: Side, requested: real, slippagePct: Option<real>,
                               step: real, tick: real)
    requires WellFormed(side, SideLevels(book, side)) && tick > 0.0
    requires OrderOutcome(book, side, requested, slippagePct, step, tick).Placed?
    ensures var r, f := OrderOutcome(book, side, requested, slippagePct, step, tick), Pct(slippagePct) / 100.0;
            var worst := Worst(SideLevels(book, side), r.amount);
            && (side.Buy? ==> Times(worst, 1.0 + f) <= r.limit < Times(worst, 1.0 + f) + tick)
            && (side.Sell? && f <= 1.0 ==> Times(worst, 1.0 - f) - tick < r.limit <= Times(worst, 1.0 - f))
  {
    hide Cost, Filled, Covers, Reach, ToX18, Times, AlignedLimit, RawLimit, RoundQty;
    var r, levels := OrderOutcome(book, side, requested, slippagePct, step, tick), SideLevels(book, side);
    var best, worst, f := levels[0].price, Worst(levels, r.amount), Pct(slippagePct) / 100.0;
    WorstIsNoBetterThanBest(side, levels, r.amount);
    ReachBounds(levels, r.amount);
    BandIsNonNegative(side, best, worst, f);
    if side.Buy? {
      BuyLimitIsTight(best, worst, f, tick);
    } else if f <= 1.0 {
      SellLimitIsTight(best, worst, f, tick);
    }
  }

  /** The amount is a multiple of the size increment and the limit one of the tick. */
  lemma PlacedOrderIsOnTheGrid(book: Book, side: Side, requested: real, slippagePct: Option<real>,
                               step: real, tick: real)
    requires tick > 0.0 && OrderOutcome(book, side, requested, slippagePct, step, tick).Placed?
    ensures var r := OrderOutcome(book, side, requested, slippagePct, step, tick);
            IsWhole(r.limit / tick) && (step > 0.0 ==> IsWhole(r.amount / step))
  {
    hide Covers, Reach, ToX18, IsWhole, Times, RawLimit;
    var r, levels := OrderOutcome(book, side, requested, slippagePct, step, tick), SideLevels(book, side);
    var raw := RawLimit(side, levels[0].price, Worst(levels, r.amount), Band(slippagePct));
    WholeMultiple(if side.Buy? then AwayFromZero(raw / tick) else TowardZero(raw / tick), tick);
    if step > 0.0 { WholeMultiple(TowardZero(requested / step), step); }
  }
}
